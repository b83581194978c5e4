/**
 * Byte strings and the little-endian integer encodings the BMS uses on the
 * wire. jkcmd.c reads them through pointer casts on a little-endian host
 * (jkcmd.c:5-6); here they are explicit functions.
 */
module Bytes {

  /** 256 to the power k: the number of values a k-byte field can hold. */
  function Pow256(k: nat): (p: nat)
    ensures p >= 1
    decreases k
  {
    if k == 0 then 1 else 256 * Pow256(k - 1)
  }

  /** The unsigned value of a little-endian byte string (least significant byte first). */
  function LeUnsigned(s: seq<bv8>): nat
    decreases |s|
  {
    if s == [] then 0 else s[0] as nat + 256 * LeUnsigned(s[1..])
  }

  /** The two's-complement value of a little-endian byte string. */
  function LeSigned(s: seq<bv8>): int {
    var u := LeUnsigned(s);
    if 2 * u >= Pow256(|s|) then u - Pow256(|s|) else u
  }

  /** The k-byte little-endian encoding of v. */
  function LeEncode(v: nat, k: nat): (s: seq<bv8>)
    requires v < Pow256(k)
    ensures |s| == k
    decreases k
  {
    if k == 0 then [] else [(v % 256) as bv8] + LeEncode(v / 256, k - 1)
  }

  /** A two-byte field: low byte plus 256 times high byte. */
  lemma LeTwoBytes(w: seq<bv8>)
    requires |w| == 2
    ensures LeUnsigned(w) == w[0] as nat + 256 * w[1] as nat
  {
    var t := w[1..];
    assert t[1..] == [];
    assert LeUnsigned(t) == t[0] as nat;
  }

  /** A k-byte field holds a value below 256^k. */
  lemma {:induction false} LeUnsignedBound(s: seq<bv8>)
    ensures LeUnsigned(s) < Pow256(|s|)
    decreases |s|
  {
    if s != [] {
      LeUnsignedBound(s[1..]);
    }
  }

  /** The signed reading lies in the two's-complement range of its width. */
  lemma LeSignedRange(s: seq<bv8>)
    requires s != []
    ensures -(Pow256(|s|) as int) <= 2 * LeSigned(s) < Pow256(|s|)
  {
    LeUnsignedBound(s);
  }

  /** The signed reading is the unsigned one, less 256^k when the top bit is set. */
  lemma LeSignedIsTwosComplement(s: seq<bv8>)
    ensures LeSigned(s) == LeUnsigned(s) || LeSigned(s) == LeUnsigned(s) - Pow256(|s|)
  {
    LeUnsignedBound(s);
  }

  /** Decoding inverts encoding. */
  lemma {:induction false} LeDecodeEncode(v: nat, k: nat)
    requires v < Pow256(k)
    ensures LeUnsigned(LeEncode(v, k)) == v
    decreases k
  {
    if k > 0 {
      var s := LeEncode(v, k);
      var lo, hi := v % 256, v / 256;
      assert s[0] == lo as bv8 && s[1..] == LeEncode(hi, k - 1);
      ByteRoundTrip(lo);
      LeDecodeEncode(hi, k - 1);
      assert LeUnsigned(s) == lo + 256 * hi;
    }
  }

  lemma ByteRoundTrip(x: nat)
    requires x < 256
    ensures (x as bv8) as nat == x
  {
    assert (x as bv8) as bv16 == x as bv16;
  }

  lemma ByteRoundTripBack(b: bv8)
    ensures (b as nat) as bv8 == b
  {
    assert (b as nat) as bv16 == b as bv16;
  }

  lemma DivModByte(u: nat, b: nat, rest: nat)
    requires b < 256 && u == b + 256 * rest
    ensures u % 256 == b && u / 256 == rest
  {
  }

  /** Encoding inverts decoding: a byte string is determined by its value and length. */
  lemma {:induction false} LeEncodeDecode(s: seq<bv8>)
    ensures LeUnsigned(s) < Pow256(|s|)
    ensures LeEncode(LeUnsigned(s), |s|) == s
    decreases |s|
  {
    LeUnsignedBound(s);
    if s != [] {
      LeEncodeDecode(s[1..]);
      var u, b, rest := LeUnsigned(s), s[0] as nat, LeUnsigned(s[1..]);
      assert u == b + 256 * rest;
      DivModByte(u, b, rest);
      ByteRoundTripBack(s[0]);
    }
  }

  /** The 4-byte value 64 00 00 00 reads as 100, unsigned or signed. */
  lemma LeExample()
    ensures LeUnsigned([0x64, 0x00, 0x00, 0x00]) == 100
    ensures LeSigned([0x64, 0x00, 0x00, 0x00]) == 100
    ensures LeSigned([0xFF, 0xFF]) == -1
  {
    assert Pow256(4) == 0x1_0000_0000;
    assert Pow256(2) == 0x1_0000;
  }
}
