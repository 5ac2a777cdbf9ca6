/**
  The layer-mask test `ExistsInLayerMask(layer)` shared, word for word, by ExplodeIndividual
  and ExplodeOnContact: `(layermask.value >> layer) % 2 == 1` on a C# `int`.

  A LayerMask's value is the 32-bit two's-complement pattern whose bit k stands for layer k,
  so a mask that contains layer 31 (the inspector's "Everything" is -1) is a negative int.
  C# shifts an `int` arithmetically and its `%` takes the sign of the dividend, so for a
  negative mask the shifted value is negative and `% 2` yields 0 or -1, never 1: the test
  as written rejects every layer of such a mask. ExistsInLayerMaskAsWritten models the code
  as written; ExistsInLayerMask is the evidently intended test, `((mask >> layer) & 1) == 1`,
  which is the one the explode components use.
*/
module LayerMasks {

  /** A C# `int`. */
  type Int32 = x: int | -0x8000_0000 <= x < 0x8000_0000

  /** k arithmetic shifts right by one position: each halves and rounds toward negative infinity. */
  function Halve(m: int, k: nat): int
    decreases k
  {
    if k == 0 then m else Halve(m / 2, k - 1)
  }

  /** C#'s `m >> count` on an `int`: the count is taken modulo 32 and the shift is arithmetic. */
  function ShiftRight(m: int, count: int): (r: int)
    ensures r < 0 <==> m < 0
    ensures count % 32 == 0 ==> r == m
  {
    HalveKeepsSign(m, count % 32);
    Halve(m, count % 32)
  }

  /** C#'s `a / b` on `int` for b > 0: the quotient is truncated toward zero. */
  function Quotient(a: int, b: int): int
    requires b > 0
  {
    if a >= 0 then a / b else -((-a) / b)
  }

  /**
    C#'s `a % b` on `int` for b > 0: what is left after the truncated quotient, so the
    remainder takes the sign of the dividend.
  */
  function Remainder(a: int, b: int): (r: int)
    requires b > 0
    ensures a == b * Quotient(a, b) + r
    ensures a >= 0 ==> 0 <= r < b
    ensures a < 0 ==> -b < r <= 0
  {
    if a >= 0 then a % b else -((-a) % b)
  }

  /** The n lowest bits of the two's-complement pattern of m, least significant first. */
  function Bits(m: int, n: nat): (r: seq<bool>)
    ensures |r| == n
    decreases n
  {
    if n == 0 then [] else [m % 2 == 1] + Bits(m / 2, n - 1)
  }

  /** Layer `layer` is selected in the mask: bit `layer` of its 32-bit pattern is set. */
  predicate InMask(mask: Int32, layer: int)
    requires 0 <= layer < 32
  {
    Bits(mask, 32)[layer]
  }

  /** `(layermask.value >> layer) % 2 == 1`, as both components write it. */
  predicate ExistsInLayerMaskAsWritten(mask: Int32, layer: int)
    ensures ExistsInLayerMaskAsWritten(mask, layer) ==> 0 <= mask
  {
    Remainder(ShiftRight(mask, layer), 2) == 1
  }

  /** The intended test, `((layermask.value >> layer) & 1) == 1`. */
  predicate ExistsInLayerMask(mask: Int32, layer: int)
    ensures mask == -1 ==> ExistsInLayerMask(mask, layer)
    ensures mask == 0 ==> !ExistsInLayerMask(mask, layer)
  {
    HalveFixesMinusOneAndZero(mask, layer % 32);
    ShiftRight(mask, layer) % 2 == 1
  }

  /** -1 and 0 are the fixed points of an arithmetic shift. */
  lemma {:induction false} HalveFixesMinusOneAndZero(m: int, k: nat)
    ensures m == -1 ==> Halve(m, k) == -1
    ensures m == 0 ==> Halve(m, k) == 0
    decreases k
  {
    if k > 0 {
      HalveFixesMinusOneAndZero(m / 2, k - 1);
    }
  }

  /** Bit k of the pattern is the lowest bit of the value shifted right k times. */
  lemma {:induction false} BitsAt(m: int, n: nat, k: nat)
    requires k < n
    ensures Bits(m, n)[k] == (Halve(m, k) % 2 == 1)
    decreases k
  {
    if k > 0 {
      BitsAt(m / 2, n - 1, k - 1);
    }
  }

  /** Arithmetic shifts keep the sign. */
  lemma {:induction false} HalveKeepsSign(m: int, k: nat)
    ensures Halve(m, k) < 0 <==> m < 0
    decreases k
  {
    if k > 0 {
      HalveKeepsSign(m / 2, k - 1);
    }
  }

  /** The intended test selects exactly the layers whose bit is set, for every 32-bit mask. */
  lemma ExistsInLayerMaskIsMembership(mask: Int32, layer: int)
    requires 0 <= layer < 32
    ensures ExistsInLayerMask(mask, layer) <==> InMask(mask, layer)
  {
    BitsAt(mask, 32, layer);
  }

  /** On a mask without layer 31 (a non-negative value) the code as written is right. */
  lemma AsWrittenAgreesOnNonNegativeMasks(mask: Int32, layer: int)
    requires 0 <= mask
    ensures ExistsInLayerMaskAsWritten(mask, layer) <==> ExistsInLayerMask(mask, layer)
  {
    HalveKeepsSign(mask, layer % 32);
  }

  /** So on a mask without layer 31 the code as written selects exactly the layers whose bit is set. */
  lemma AsWrittenIsMembershipOnNonNegativeMasks(mask: Int32, layer: int)
    requires 0 <= mask && 0 <= layer < 32
    ensures ExistsInLayerMaskAsWritten(mask, layer) <==> InMask(mask, layer)
  {
    AsWrittenAgreesOnNonNegativeMasks(mask, layer);
    ExistsInLayerMaskIsMembership(mask, layer);
  }

  /** On a mask with layer 31 (a negative value) the code as written rejects every layer. */
  lemma AsWrittenRejectsNegativeMasks(mask: Int32, layer: int)
    requires mask < 0
    ensures !ExistsInLayerMaskAsWritten(mask, layer)
  {
    HalveKeepsSign(mask, layer % 32);
  }

  /** Every bit of -1 is set. */
  lemma {:induction false} AllBitsOfMinusOne(n: nat, k: nat)
    requires k < n
    ensures Bits(-1, n)[k]
    decreases k
  {
    if k > 0 {
      AllBitsOfMinusOne(n - 1, k - 1);
    }
  }

  /**
    The inspector's "Everything" mask (-1) selects layer 0 (the Default layer), yet the
    code as written reports that layer 0 is not in it; the intended test agrees with the mask.
  */
  lemma EverythingMaskCounterexample()
    ensures InMask(-1, 0) && ExistsInLayerMask(-1, 0)
    ensures !ExistsInLayerMaskAsWritten(-1, 0)
  {
    AllBitsOfMinusOne(32, 0);
    ExistsInLayerMaskIsMembership(-1, 0);
    AsWrittenRejectsNegativeMasks(-1, 0);
  }
}
