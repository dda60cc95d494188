/** Python `bytes` elements, the integers 0..255, and their bitwise exclusive or. */
module Bytes {

  newtype byte = x: int | 0 <= x < 256

  function Pow2(w: nat): (p: nat)
    ensures p >= 1
  {
    if w == 0 then 1 else 2 * Pow2(w - 1)
  }

  /** Bitwise exclusive or of the low `w` bits of `a` and `b`, least significant bit first. */
  function XorBits(a: nat, b: nat, w: nat): (r: nat)
    requires a < Pow2(w) && b < Pow2(w)
    ensures r < Pow2(w)
  {
    if w == 0 then 0
    else 2 * XorBits(a / 2, b / 2, w - 1) + (if a % 2 == b % 2 then 0 else 1)
  }

  /** `a ^ b` on two byte values. */
  function Xor(a: byte, b: byte): byte {
    assert Pow2(8) == 256;
    XorBits(a as nat, b as nat, 8) as byte
  }

  lemma {:induction false} XorBitsTwice(a: nat, k: nat, w: nat)
    requires a < Pow2(w) && k < Pow2(w)
    ensures XorBits(XorBits(a, k, w), k, w) == a
  {
    if w > 0 {
      XorBitsTwice(a / 2, k / 2, w - 1);
    }
  }

  /** XOR-ing twice with the same byte gives back the original. */
  lemma XorTwice(a: byte, k: byte)
    ensures Xor(Xor(a, k), k) == a
  {
    assert Pow2(8) == 256;
    XorBitsTwice(a as nat, k as nat, 8);
  }
}
