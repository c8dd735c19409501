/** Bytes and the little-endian integer layouts used by Python's struct module. */
module Bytes {

  /** One octet, as Python's `bytes` holds it. */
  type byte = x: int | 0 <= x < 256

  /** Whether `x` fits a struct 'B' field. */
  predicate IsByte(x: int) {
    0 <= x < 256
  }

  /** 256 to the power `n`: the number of values `n` little-endian bytes can hold. */
  function Pow256(n: nat): (r: nat)
    ensures r >= 1
  {
    if n == 0 then 1 else 256 * Pow256(n - 1)
  }

  /** The `width` low bytes of `x`, least significant first ('<H' is width 2, '<L' width 4). */
  function LittleEndian(x: nat, width: nat): (r: seq<byte>)
    ensures |r| == width
  {
    if width == 0 then [] else [x % 256] + LittleEndian(x / 256, width - 1)
  }

  /** The unsigned integer a little-endian byte string denotes. */
  function FromLittleEndian(s: seq<byte>): (r: nat)
    ensures r < Pow256(|s|)
  {
    if s == [] then 0 else s[0] + 256 * FromLittleEndian(s[1..])
  }

  /** Decoding recovers every value that fits the field. */
  lemma {:induction false} FromLittleEndianInverse(x: nat, width: nat)
    requires x < Pow256(width)
    ensures FromLittleEndian(LittleEndian(x, width)) == x
  {
    if width > 0 {
      var rest := LittleEndian(x / 256, width - 1);
      assert LittleEndian(x, width)[1..] == rest;
      FromLittleEndianInverse(x / 256, width - 1);
    }
  }

  /** Encoding recovers every byte string. */
  lemma {:induction false} LittleEndianInverse(s: seq<byte>)
    ensures LittleEndian(FromLittleEndian(s), |s|) == s
  {
    if s != [] {
      LittleEndianInverse(s[1..]);
      var n := FromLittleEndian(s);
      assert n % 256 == s[0] && n / 256 == FromLittleEndian(s[1..]);
    }
  }

  /** What struct's '8s' code stores: the first eight bytes, padded with zeros when shorter. */
  function ZeroPad8(data: seq<byte>): (r: seq<byte>)
    ensures |r| == 8
    ensures forall i :: 0 <= i < 8 ==> r[i] == if i < |data| then data[i] else 0
  {
    if |data| >= 8 then data[..8] else data + seq(8 - |data|, _ => 0)
  }

  lemma ByteAsBv8(b: byte)
    ensures b == (b as bv8) as int
  {
  }

  lemma WidenByte(b: byte)
    ensures b as bv16 == (b as bv8) as bv16
  {
  }

  lemma WidenInjective(x: bv8, y: bv8)
    ensures x as bv16 == y as bv16 ==> x == y
  {
  }

  /** Distinct bytes stay distinct as 16-bit register values. */
  lemma ByteAsBv16Injective(b1: byte, b2: byte)
    ensures b1 as bv16 == b2 as bv16 ==> b1 == b2
  {
    WidenByte(b1);
    WidenByte(b2);
    WidenInjective(b1 as bv8, b2 as bv8);
    ByteAsBv8(b1);
    ByteAsBv8(b2);
  }
}
