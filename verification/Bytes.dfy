/** Bytes, and the big-endian integers of the wire format (include/ports/transport.hpp). */
module Bytes {
  datatype Option<+T> = None | Some(value: T) {
    predicate IsFailure() { None? }
    function PropagateFailure<U>(): Option<U> requires None? { None }
    function Extract(): T requires Some? { value }
  }

  type byte = x: int | 0 <= x < 256

  /** A `std::string` or a `std::vector<uint8_t>`: both are byte strings here. */
  type Text = seq<byte>

  const TWO32 := 0x1_0000_0000
  const TWO64 := 0x1_0000_0000_0000_0000

  type u32 = x: int | 0 <= x < TWO32
  type u64 = x: int | 0 <= x < TWO64

  function Ascii(s: string): (t: Text)
    ensures |t| == |s|
  {
    seq(|s|, i requires 0 <= i < |s| => s[i] as int % 256)
  }

  function Pow256(n: nat): (p: nat)
    ensures p > 0
  {
    if n == 0 then 1 else 256 * Pow256(n - 1)
  }

  /** The `n` low bytes of `x`, most significant first. */
  function BigEndian(n: nat, x: nat): (r: Text)
    ensures |r| == n
  {
    if n == 0 then [] else BigEndian(n - 1, x / 256) + [x % 256]
  }

  /** The number a byte string denotes, most significant byte first. */
  function Value(s: Text): (v: nat)
    ensures v < Pow256(|s|)
  {
    if s == [] then 0 else 256 * Value(s[..|s| - 1]) + s[|s| - 1]
  }

  function Be32(x: u32): (r: Text)
    ensures |r| == 4
  {
    BigEndian(4, x)
  }

  function Be64(x: u64): (r: Text)
    ensures |r| == 8
  {
    BigEndian(8, x)
  }

  lemma {:induction false} ValueOfBigEndian(n: nat, x: nat)
    requires x < Pow256(n)
    ensures Value(BigEndian(n, x)) == x
  {
    if n > 0 {
      ValueOfBigEndian(n - 1, x / 256);
      var r := BigEndian(n, x);
      assert r[..n - 1] == BigEndian(n - 1, x / 256);
    }
  }

  lemma {:induction false} BigEndianOfValue(s: Text)
    ensures BigEndian(|s|, Value(s)) == s
  {
    if s != [] {
      BigEndianOfValue(s[..|s| - 1]);
      assert s == s[..|s| - 1] + [s[|s| - 1]];
    }
  }

  lemma Widths()
    ensures Pow256(4) == TWO32 && Pow256(8) == TWO64
  {
    assert Pow256(4) == 256 * 256 * 256 * 256;
    assert Pow256(8) == 256 * 256 * 256 * 256 * Pow256(4);
  }

  function Get32(p: Text): (v: u32)
    requires |p| >= 4
  {
    Widths();
    Value(p[..4])
  }

  function Get64(p: Text): (v: u64)
    requires |p| >= 8
  {
    Widths();
    Value(p[..8])
  }

  /** Writing then reading a 32-bit number, whatever follows it. */
  lemma Get32OfBe32(x: u32, rest: Text)
    ensures Get32(Be32(x) + rest) == x
  {
    Widths();
    ValueOfBigEndian(4, x);
    assert (Be32(x) + rest)[..4] == Be32(x);
  }

  /** Reading then writing gives back the bytes read. */
  lemma Be32OfGet32(p: Text)
    requires |p| >= 4
    ensures Be32(Get32(p)) == p[..4]
  {
    BigEndianOfValue(p[..4]);
  }

  lemma Get64OfBe64(x: u64, rest: Text)
    ensures Get64(Be64(x) + rest) == x
  {
    Widths();
    ValueOfBigEndian(8, x);
    assert (Be64(x) + rest)[..8] == Be64(x);
  }

  lemma Be64OfGet64(p: Text)
    requires |p| >= 8
    ensures Be64(Get64(p)) == p[..8]
  {
    BigEndianOfValue(p[..8]);
  }

  /** `x >> (8 * n)`. */
  function ShiftRight8(x: nat, n: nat): nat
  {
    if n == 0 then x else ShiftRight8(x, n - 1) / 256
  }

  /** `put32be`: four pushes. */
  method Put32(v: Text, x: u32) returns (r: Text)
    ensures r == v + Be32(x)
  {
    r := v + [x / 0x1000000 % 256];
    r := r + [x / 0x10000 % 256];
    r := r + [x / 0x100 % 256];
    r := r + [x % 256];
    Be32Bytes(x);
  }

  lemma Be32Bytes(x: u32)
    ensures Be32(x) == [x / 0x1000000 % 256, x / 0x10000 % 256, x / 0x100 % 256, x % 256]
  {
    assert BigEndian(0, x / 256 / 256 / 256 / 256) == [];
    assert BigEndian(1, x / 256 / 256 / 256) == [x / 256 / 256 / 256 % 256];
    assert BigEndian(2, x / 256 / 256) == [x / 256 / 256 / 256 % 256, x / 256 / 256 % 256];
    assert BigEndian(3, x / 256) == [x / 256 / 256 / 256 % 256, x / 256 / 256 % 256, x / 256 % 256];
  }

  /** `put64be`: pushes the eight bytes from the most significant one down. */
  method Put64(v: Text, x: u64) returns (r: Text)
    ensures r == v + Be64(x)
  {
    r := v;
    var i := 8;
    while i > 0
      invariant 0 <= i <= 8
      invariant r == v + BigEndian(8 - i, ShiftRight8(x, i))
    {
      i := i - 1;
      r := r + [ShiftRight8(x, i) % 256];
    }
  }

  /** `get64be`: shifts eight bytes in. */
  method Load64(p: Text) returns (v: u64)
    requires |p| >= 8
    ensures v == Get64(p)
  {
    Widths();
    var acc: nat := 0;
    for i := 0 to 8
      invariant acc == Value(p[..i])
    {
      assert p[..i + 1][..i] == p[..i];
      acc := 256 * acc + p[i];
    }
    v := acc;
  }
}
