/** Rounding ring sizes up to a power of two by smearing the highest bit downwards. */
module RoundUp {

  /** Exactly one bit set. */
  predicate PowerOfTwo(p: bv32) {
    p != 0 && p & (p - 1) == 0
  }

  function Smear(n: bv32): bv32 {
    var a := n | (n >> 1);
    var b := a | (a >> 2);
    var c := b | (b >> 4);
    var d := c | (c >> 8);
    d | (d >> 16)
  }

  /** Smearing fills every bit below the highest one: the result covers `n`, and is the least such block of ones. */
  lemma SmearFills(n: bv32)
    ensures n <= Smear(n)
    ensures Smear(n) & (Smear(n) + 1) == 0
    ensures n != 0 ==> Smear(n) >> 1 < n
  {
  }

  /** Zero stays zero; up to 2^31 the result is the least power of two that is not below `num`; above, no 32-bit power
      of two is large enough and the sum wraps around to zero. */
  method RoundUpPowerOfTwo(num: bv32) returns (r: bv32)
    ensures num == 0 ==> r == 0
    ensures 0 < num <= 0x8000_0000 ==> PowerOfTwo(r) && num <= r
    ensures 0 < num <= 0x8000_0000 ==> forall p :: PowerOfTwo(p) && num <= p ==> r <= p
    ensures num > 0x8000_0000 ==> r == 0 && forall p :: PowerOfTwo(p) ==> p < num
  {
    if num == 0 {
      return 0;
    }
    var n := num - 1;
    SmearFills(n);
    n := n | (n >> 1);
    n := n | (n >> 2);
    n := n | (n >> 4);
    n := n | (n >> 8);
    n := n | (n >> 16);
    return n + 1;
  }
}
