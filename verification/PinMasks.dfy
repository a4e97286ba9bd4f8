/** GPIO masks as sets of pin numbers.

    The PWM tables are reasoned about with sets.  `Pins` reads a 16-bit mask as the set it stands for,
    and `MasksAreSets` shows that `0`, `1 << n`, `|` and `^` on masks are `{}`, `{n}`, union and `Flip`.
  */
module PinMasks {

  type Pin = p: int | 0 <= p < 16

  type Mask = set<Pin>

  /** The exclusive or of two masks. */
  function Flip(a: Mask, b: Mask): Mask {
    (a - b) + (b - a)
  }

  /** The 16-bit value `1 << n`. */
  function OneShifted(n: Pin): bv16 {
    if n == 0 then 0x1
    else if n == 1 then 0x2
    else if n == 2 then 0x4
    else if n == 3 then 0x8
    else if n == 4 then 0x10
    else if n == 5 then 0x20
    else if n == 6 then 0x40
    else if n == 7 then 0x80
    else if n == 8 then 0x100
    else if n == 9 then 0x200
    else if n == 10 then 0x400
    else if n == 11 then 0x800
    else if n == 12 then 0x1000
    else if n == 13 then 0x2000
    else if n == 14 then 0x4000
    else 0x8000
  }

  lemma OneDoubles(n: Pin)
    ensures OneShifted(0) == 1 && (n < 15 ==> OneShifted(n + 1) == OneShifted(n) << 1)
  {
  }

  predicate Has(mask: bv16, n: Pin) {
    mask & OneShifted(n) != 0
  }

  function Pins(mask: bv16): Mask {
    set p: Pin | 0 <= p < 16 && Has(mask, p)
  }

  lemma XorBit(a: bv16, b: bv16, one: bv16)
    requires one & (one - 1) == 0
    ensures (a ^ b) & one != 0 <==> (a & one != 0) != (b & one != 0)
  {
  }

  lemma OneBit(n: Pin)
    ensures OneShifted(n) != 0 && OneShifted(n) & (OneShifted(n) - 1) == 0
  {
  }

  lemma HasEither(a: bv16, b: bv16, k: Pin)
    ensures Has(a | b, k) ==> Has(a, k) || Has(b, k)
  {
  }

  lemma OrHas(a: bv16, b: bv16, k: Pin)
    requires Has(a, k)
    ensures Has(a | b, k)
  {
  }

  lemma OrCommutes(a: bv16, b: bv16)
    ensures a | b == b | a
  {
  }

  lemma HasOr(a: bv16, b: bv16, k: Pin)
    ensures Has(a | b, k) <==> Has(a, k) || Has(b, k)
  {
    HasEither(a, b, k);
    if Has(a, k) {
      OrHas(a, b, k);
    } else if Has(b, k) {
      OrHas(b, a, k);
      OrCommutes(a, b);
    }
  }

  lemma HasXor(a: bv16, b: bv16, k: Pin)
    ensures Has(a ^ b, k) <==> Has(a, k) != Has(b, k)
  {
    OneBit(k);
    XorBit(a, b, OneShifted(k));
  }

  lemma HasOne(n: Pin, k: Pin)
    ensures !Has(0, k) && (Has(OneShifted(n), k) <==> n == k)
  {
  }

  /** Masks and sets of pins are operated on alike. */
  lemma MasksAreSets(a: bv16, b: bv16, n: Pin)
    ensures Pins(0) == {} && Pins(OneShifted(n)) == {n}
    ensures Pins(a | b) == Pins(a) + Pins(b)
    ensures Pins(a ^ b) == Flip(Pins(a), Pins(b))
  {
    forall k: Pin
      ensures !Has(0, k) && (Has(OneShifted(n), k) <==> n == k)
      ensures Has(a | b, k) <==> Has(a, k) || Has(b, k)
      ensures Has(a ^ b, k) <==> Has(a, k) != Has(b, k)
    {
      HasOne(n, k);
      HasOr(a, b, k);
      HasXor(a, b, k);
    }
  }
}
