/** The vendored SHA-256 (include/infrastructure/sha256.hpp) against FIPS 180-4. */
module Sha256 {
  import opened Bytes

  /** Addition modulo 2^32. */
  function Plus(x: bv32, y: bv32): bv32 { x + y }
  function Ch(x: bv32, y: bv32, z: bv32): bv32 { (x & y) ^ (!x & z) }
  function Maj(x: bv32, y: bv32, z: bv32): bv32 { (x & y) ^ (x & z) ^ (y & z) }
  function Rotr(x: bv32, n: bv6): bv32 requires 0 < n < 32 { (x >> n) | (x << (32 - n)) }
  function BSig0(x: bv32): bv32 { Rotr(x, 2) ^ Rotr(x, 13) ^ Rotr(x, 22) }
  function BSig1(x: bv32): bv32 { Rotr(x, 6) ^ Rotr(x, 11) ^ Rotr(x, 25) }
  function SSig0(x: bv32): bv32 { Rotr(x, 7) ^ Rotr(x, 18) ^ (x >> 3) }
  function SSig1(x: bv32): bv32 { Rotr(x, 17) ^ Rotr(x, 19) ^ (x >> 10) }

  /** The selectors choose and vote bit by bit (section 4.1.2 of FIPS 180-4). */
  lemma BitFunctions(x: bv32, y: bv32, z: bv32)
    ensures Ch(x, y, z) == (x & y) | (!x & z)
    ensures Maj(x, y, z) == (x & y) | (x & z) | (y & z)
  {
  }

  /** The shifts and ors are rotations (section 3.2 of FIPS 180-4). */
  lemma Rotations(x: bv32)
    ensures Rotr(x, 2) == x.RotateRight(2) && Rotr(x, 13) == x.RotateRight(13) && Rotr(x, 22) == x.RotateRight(22)
    ensures Rotr(x, 6) == x.RotateRight(6) && Rotr(x, 11) == x.RotateRight(11) && Rotr(x, 25) == x.RotateRight(25)
    ensures Rotr(x, 7) == x.RotateRight(7) && Rotr(x, 18) == x.RotateRight(18)
    ensures Rotr(x, 17) == x.RotateRight(17) && Rotr(x, 19) == x.RotateRight(19)
  {
  }

  function K0(t: nat): bv32
    requires t < 16
  {
    match t
    case 0 => 0x428a2f98 case 1 => 0x71374491 case 2 => 0xb5c0fbcf case 3 => 0xe9b5dba5 case 4 => 0x3956c25b case 5 => 0x59f111f1 case 6 => 0x923f82a4 case 7 => 0xab1c5ed5
    case 8 => 0xd807aa98 case 9 => 0x12835b01 case 10 => 0x243185be case 11 => 0x550c7dc3 case 12 => 0x72be5d74 case 13 => 0x80deb1fe case 14 => 0x9bdc06a7 case _ => 0xc19bf174
  }

  function K1(t: nat): bv32
    requires t < 16
  {
    match t
    case 0 => 0xe49b69c1 case 1 => 0xefbe4786 case 2 => 0x0fc19dc6 case 3 => 0x240ca1cc case 4 => 0x2de92c6f case 5 => 0x4a7484aa case 6 => 0x5cb0a9dc case 7 => 0x76f988da
    case 8 => 0x983e5152 case 9 => 0xa831c66d case 10 => 0xb00327c8 case 11 => 0xbf597fc7 case 12 => 0xc6e00bf3 case 13 => 0xd5a79147 case 14 => 0x06ca6351 case _ => 0x14292967
  }

  function K2(t: nat): bv32
    requires t < 16
  {
    match t
    case 0 => 0x27b70a85 case 1 => 0x2e1b2138 case 2 => 0x4d2c6dfc case 3 => 0x53380d13 case 4 => 0x650a7354 case 5 => 0x766a0abb case 6 => 0x81c2c92e case 7 => 0x92722c85
    case 8 => 0xa2bfe8a1 case 9 => 0xa81a664b case 10 => 0xc24b8b70 case 11 => 0xc76c51a3 case 12 => 0xd192e819 case 13 => 0xd6990624 case 14 => 0xf40e3585 case _ => 0x106aa070
  }

  function K3(t: nat): bv32
    requires t < 16
  {
    match t
    case 0 => 0x19a4c116 case 1 => 0x1e376c08 case 2 => 0x2748774c case 3 => 0x34b0bcb5 case 4 => 0x391c0cb3 case 5 => 0x4ed8aa4a case 6 => 0x5b9cca4f case 7 => 0x682e6ff3
    case 8 => 0x748f82ee case 9 => 0x78a5636f case 10 => 0x84c87814 case 11 => 0x8cc70208 case 12 => 0x90befffa case 13 => 0xa4506ceb case 14 => 0xbef9a3f7 case _ => 0xc67178f2
  }

  /** The table of constants, in quarters. */
  function K(t: nat): bv32
    requires t < 64
  {
    if t < 16 then K0(t) else if t < 32 then K1(t - 16) else if t < 48 then K2(t - 32) else K3(t - 48)
  }

  // ---------------------------------------------------------------------------------------
  // FIPS 180-4 as recursive definitions
  // ---------------------------------------------------------------------------------------

  /** The eight working variables, or the eight words of an intermediate hash value. */
  datatype Words = Words(a: bv32, b: bv32, c: bv32, d: bv32, e: bv32, f: bv32, g: bv32, h: bv32)

  const INITIAL := Words(0x6a09e667, 0xbb67ae85, 0x3c6ef372, 0xa54ff53a, 0x510e527f, 0x9b05688c, 0x1f83d9ab, 0x5be0cd19)

  /** A message block: 64 bytes. */
  type Block = b: Text | |b| == 64 witness seq(64, _ => 0)

  function WordAt(b: Text, i: nat): bv32
    requires 4 * i + 3 < |b|
  {
    (b[4 * i] as bv32 << 24) | (b[4 * i + 1] as bv32 << 16) | (b[4 * i + 2] as bv32 << 8) | b[4 * i + 3] as bv32
  }

  /** The message schedule, section 6.2.2 step 1. */
  function Schedule(b: Block, t: nat): bv32
    requires t < 64
  {
    if t < 16 then WordAt(b, t)
    else Extend(Schedule(b, t - 2), Schedule(b, t - 7), Schedule(b, t - 15), Schedule(b, t - 16))
  }

  function Extend(w2: bv32, w7: bv32, w15: bv32, w16: bv32): bv32 { SSig1(w2) + w7 + SSig0(w15) + w16 }
  function T1(e: bv32, f: bv32, g: bv32, h: bv32, k: bv32, w: bv32): bv32 { h + BSig1(e) + Ch(e, f, g) + k + w }
  function T2(a: bv32, b: bv32, c: bv32): bv32 { BSig0(a) + Maj(a, b, c) }

  function Round(v: Words, k: bv32, w: bv32): Words
  {
    var t1, t2 := T1(v.e, v.f, v.g, v.h, k, w), T2(v.a, v.b, v.c);
    Words(Plus(t1, t2), v.a, v.b, v.c, Plus(v.d, t1), v.e, v.f, v.g)
  }

  /** The working variables after `t` rounds, section 6.2.2 steps 2 and 3. */
  function Rounds(b: Block, v: Words, t: nat): Words
    requires t <= 64
  {
    if t == 0 then v else Round(Rounds(b, v, t - 1), K(t - 1), Schedule(b, t - 1))
  }

  function Add(x: Words, y: Words): Words
  {
    Words(Plus(x.a, y.a), Plus(x.b, y.b), Plus(x.c, y.c), Plus(x.d, y.d), Plus(x.e, y.e), Plus(x.f, y.f), Plus(x.g, y.g), Plus(x.h, y.h))
  }

  function Compress(b: Block, v: Words): Words
  {
    Add(v, Rounds(b, v, 64))
  }

  /** The hash value after the first `n` blocks. */
  function Absorb(data: Text, n: nat): Words
    requires 64 * n <= |data|
  {
    if n == 0 then INITIAL else Compress(data[64 * (n - 1)..64 * n], Absorb(data, n - 1))
  }

  /** Section 5.1.1: the number of zero bytes after the 0x80 byte. */
  function Gap(n: nat): (z: nat)
    ensures (n + 1 + z) % 64 == 56 && z < 64
  {
    (119 - n % 64) % 64
  }

  function Zeros(n: nat): (z: Text)
    ensures |z| == n
  {
    seq(n, _ => 0)
  }

  function Padded(msg: Text): Text
  {
    msg + [0x80] + Zeros(Gap(|msg|)) + Be64(8 * |msg| % TWO64)
  }

  function Bytes4(x: bv32): Text
  {
    [((x >> 24) & 0xFF) as int, ((x >> 16) & 0xFF) as int, ((x >> 8) & 0xFF) as int, (x & 0xFF) as int]
  }

  function Serialize(v: Words): (r: Text)
    ensures |r| == 32
  {
    SerializeWords([v.a, v.b, v.c, v.d, v.e, v.f, v.g, v.h])
  }

  function SerializeWords(ws: seq<bv32>): (r: Text)
    ensures |r| == 4 * |ws|
  {
    if ws == [] then [] else SerializeWords(ws[..|ws| - 1]) + Bytes4(ws[|ws| - 1])
  }

  function Digest(msg: Text): (r: Text)
    ensures |r| == 32
  {
    Serialize(Absorb(Padded(msg), |Padded(msg)| / 64))
  }

  // ---------------------------------------------------------------------------------------
  // `hash_bytes` as written: in-place padding, schedule array and working variables
  // ---------------------------------------------------------------------------------------

  /** The loop condition of the padding fails for the first time after `Gap` zeros. */
  lemma GapReached(n: nat, z: nat)
    requires z <= Gap(n)
    ensures ((n + 1 + z) * 8) % 512 == 448 <==> z == Gap(n)
  {
    hide Gap;
    BitsAndBytes(n + 1 + z);
    var more := Gap(n) - z;
    assert (n + 1 + z + more) % 64 == 56;
  }

  lemma BitsAndBytes(len: nat)
    ensures (len * 8) % 512 == 448 <==> len % 64 == 56
  {
    var q, r := len / 64, len % 64;
    assert len * 8 == 512 * q + 8 * r;
  }

  /** The padding loop: pushes zeros until the length is 56 modulo 64, then the bit length. */
  method Pad(msg: Text) returns (data: Text)
    ensures data == Padded(msg)
  {
    hide Be64, Gap;
    data := msg + [0x80];
    ghost var z := 0;
    while (|data| * 8) % 512 != 448
      invariant z <= Gap(|msg|) && data == msg + [0x80] + Zeros(z)
      decreases Gap(|msg|) - z
    {
      GapReached(|msg|, z);
      assert Zeros(z) + [0] == Zeros(z + 1);
      data := data + [0];
      z := z + 1;
    }
    GapReached(|msg|, z);
    data := Put64(data, 8 * |msg| % TWO64);
  }

  /** Lines 36-37: the first sixteen words come from the block, the rest from earlier words. */
  method Expand(b: Block) returns (w: array<bv32>)
    ensures fresh(w) && w.Length == 64
    ensures forall t :: 0 <= t < 64 ==> w[t] == Schedule(b, t)
  {
    hide WordAt, Extend;
    w := new bv32[64];
    for i := 0 to 16
      invariant forall t :: 0 <= t < i ==> w[t] == Schedule(b, t)
    {
      w[i] := WordAt(b, i);
    }
    for i := 16 to 64
      invariant forall t :: 0 <= t < i ==> w[t] == Schedule(b, t)
    {
      w[i] := Extend(w[i - 2], w[i - 7], w[i - 15], w[i - 16]);
    }
  }

  ghost function WordsIn(h: array<bv32>): Words
    requires h.Length == 8
    reads h
  {
    Words(h[0], h[1], h[2], h[3], h[4], h[5], h[6], h[7])
  }

  /** Lines 38-39: sixty-four rounds on eight shifting variables. */
  method RunRounds(b: Block, v: Words) returns (r: Words)
    ensures r == Rounds(b, v, 64)
  {
    hide T1, T2, K, Plus, Schedule;
    var w := Expand(b);
    var Words(a, b', c, d, e, f, g, hh) := v;
    for i := 0 to 64
      invariant Words(a, b', c, d, e, f, g, hh) == Rounds(b, v, i)
    {
      var t1 := T1(e, f, g, hh, K(i), w[i]);
      var t2 := T2(a, b', c);
      hh := g; g := f; f := e; e := Plus(d, t1); d := c; c := b'; b' := a; a := Plus(t1, t2);
    }
    r := Words(a, b', c, d, e, f, g, hh);
  }

  /** Lines 38-40: the eight words of `h` updated in place by one block. */
  method CompressInPlace(b: Block, h: array<bv32>)
    requires h.Length == 8
    modifies h
    ensures WordsIn(h) == Compress(b, old(WordsIn(h)))
  {
    hide Rounds, Plus;
    var v := RunRounds(b, Words(h[0], h[1], h[2], h[3], h[4], h[5], h[6], h[7]));
    h[0] := Plus(h[0], v.a); h[1] := Plus(h[1], v.b); h[2] := Plus(h[2], v.c); h[3] := Plus(h[3], v.d);
    h[4] := Plus(h[4], v.e); h[5] := Plus(h[5], v.f); h[6] := Plus(h[6], v.g); h[7] := Plus(h[7], v.h);
  }

  method HashBytes(msg: Text) returns (out: Text)
    ensures out == Digest(msg)
  {
    hide Compress, Padded, SerializeWords;
    var h := new bv32[8];
    h[0], h[1], h[2], h[3] := 0x6a09e667, 0xbb67ae85, 0x3c6ef372, 0xa54ff53a;
    h[4], h[5], h[6], h[7] := 0x510e527f, 0x9b05688c, 0x1f83d9ab, 0x5be0cd19;
    var data := Pad(msg);
    var n := |data| / 64;
    for i := 0 to n
      invariant WordsIn(h) == Absorb(data, i)
    {
      CompressInPlace(data[64 * i..64 * (i + 1)], h);
    }
    hide Absorb;
    out := WriteOut(h);
  }

  /** Lines 42-44: the eight words, four bytes each. */
  method WriteOut(h: array<bv32>) returns (out: Text)
    requires h.Length == 8
    ensures out == Serialize(WordsIn(h))
  {
    hide Bytes4;
    out := [];
    for i := 0 to 8
      invariant out == SerializeWords(h[..i])
    {
      assert h[..i + 1][..i] == h[..i];
      out := out + Bytes4(h[i]);
    }
    assert h[..8] == [h[0], h[1], h[2], h[3], h[4], h[5], h[6], h[7]];
  }

  // ---------------------------------------------------------------------------------------
  // Padding
  // ---------------------------------------------------------------------------------------

  /** The padded length is the least multiple of 64 that leaves room for the nine added bytes. */
  lemma PaddedLength(msg: Text, m: nat)
    requires m % 64 == 0 && m >= |msg| + 9
    ensures |Padded(msg)| % 64 == 0 && |msg| + 9 <= |Padded(msg)| <= m
  {
    hide Be64, Zeros;
    var n := |Padded(msg)|;
    assert n == |msg| + 9 + Gap(|msg|);
    hide Padded, Gap;
  }

  /** Section 5.1.1: no two messages shorter than 2^61 bytes pad to the same blocks. */
  lemma PaddingInjective(x: Text, y: Text)
    requires 8 * |x| < TWO64 && 8 * |y| < TWO64 && Padded(x) == Padded(y)
    ensures x == y
  {
    hide Be64;
    var p, n := Padded(x), |Padded(x)|;
    assert p[n - 8..] == Be64(8 * |x|) && p[n - 8..] == Be64(8 * |y|);
    Get64OfBe64(8 * |x|, []);
    Get64OfBe64(8 * |y|, []);
    assert p[..|x|] == x && p[..|y|] == y;
  }

  // ---------------------------------------------------------------------------------------
  // Hexadecimal
  // ---------------------------------------------------------------------------------------

  const HEX_DIGITS := "0123456789abcdef"

  function HexDigit(i: nat): (c: char)
    requires i < 16
    ensures c in HEX_DIGITS
  {
    HEX_DIGITS[i]
  }

  function Hex(b: Text): (s: string)
    ensures |s| == 2 * |b|
    ensures forall i :: 0 <= i < |s| ==> s[i] in HEX_DIGITS
  {
    if b == [] then "" else [HexDigit(b[0] / 16), HexDigit(b[0] % 16)] + Hex(b[1..])
  }

  lemma HexDigitsDistinct(i: nat, j: nat)
    requires i < 16 && j < 16 && HexDigit(i) == HexDigit(j)
    ensures i == j
  {
  }

  lemma {:induction false} HexInjective(x: Text, y: Text)
    requires Hex(x) == Hex(y)
    ensures x == y
  {
    hide HexDigit;
    if x != [] && y != [] {
      var p, q := Hex(x), Hex(y);
      assert p[0] == HexDigit(x[0] / 16) && p[1] == HexDigit(x[0] % 16) && p[2..] == Hex(x[1..]);
      assert q[0] == HexDigit(y[0] / 16) && q[1] == HexDigit(y[0] % 16) && q[2..] == Hex(y[1..]);
      HexDigitsDistinct(x[0] / 16, y[0] / 16);
      HexDigitsDistinct(x[0] % 16, y[0] % 16);
      HexInjective(x[1..], y[1..]);
      assert x == [x[0]] + x[1..] && y == [y[0]] + y[1..];
    }
  }
}
