/** The ready mask as an unsigned word. Bits are read off by halving, so the bitwise operators of the C
    code are recursive functions here; the lemmas say what each does to every single bit. */
module Bitmap {

  const PRIORITY_MAX := 31

  /** `1 << p` */
  function Pow2(p: nat): nat {
    if p == 0 then 1 else 2 * Pow2(p - 1)
  }

  /** Bit `p` of `m`. */
  predicate Has(m: nat, p: nat) {
    if p == 0 then m % 2 == 1 else Has(m / 2, p - 1)
  }

  /** `m | (1 << p)` */
  function SetBit(m: nat, p: nat): nat {
    if p == 0 then 2 * (m / 2) + 1 else 2 * SetBit(m / 2, p - 1) + m % 2
  }

  /** `m & ~(1 << p)` */
  function ClearBit(m: nat, p: nat): nat {
    if p == 0 then 2 * (m / 2) else 2 * ClearBit(m / 2, p - 1) + m % 2
  }

  /** `a & b` */
  function And(a: nat, b: nat): nat {
    if a == 0 then 0 else 2 * And(a / 2, b / 2) + (if a % 2 == 1 && b % 2 == 1 then 1 else 0)
  }

  /** `~((1 << (p + 1)) - 1)` on 32 bits: the complement of `x` is all ones minus `x`. */
  function Above(p: nat): nat
    requires p < PRIORITY_MAX
  {
    Pow2Monotone(p + 1, 32);
    (Pow2(32) - 1) - (Pow2(p + 1) - 1)
  }

  /** Leading zero bits, counted from bit `31 - seen` downwards. */
  function LeadingZeros(m: nat, seen: nat): nat
    requires seen <= 32
    decreases 32 - seen
  {
    if seen == 32 || Has(m, PRIORITY_MAX - seen) then seen else LeadingZeros(m, seen + 1)
  }

  /** `31 - clz(m)` */
  function Highest(m: nat): int {
    PRIORITY_MAX - LeadingZeros(m, 0)
  }

  lemma {:induction false} Pow2Monotone(p: nat, q: nat)
    requires p <= q
    ensures Pow2(p) <= Pow2(q)
  {
    if p < q {
      Pow2Monotone(p, q - 1);
    }
  }

  lemma {:induction false} SetBitHas(m: nat, p: nat, q: nat)
    ensures Has(SetBit(m, p), q) <==> p == q || Has(m, q)
  {
    if p > 0 && q > 0 {
      SetBitHas(m / 2, p - 1, q - 1);
    }
  }

  lemma {:induction false} ClearBitHas(m: nat, p: nat, q: nat)
    ensures Has(ClearBit(m, p), q) <==> p != q && Has(m, q)
  {
    if p > 0 && q > 0 {
      ClearBitHas(m / 2, p - 1, q - 1);
    }
  }

  lemma {:induction false} AndHas(a: nat, b: nat, q: nat)
    ensures Has(And(a, b), q) <==> Has(a, q) && Has(b, q)
  {
    if a == 0 {
      ZeroHas(q);
    } else if q > 0 {
      AndHas(a / 2, b / 2, q - 1);
    }
  }

  lemma ZeroHas(q: nat)
    ensures !Has(0, q)
  {
  }

  /** Setting or clearing one of the 32 bits keeps the mask a 32-bit word. */
  lemma {:induction false} StaysInWord(m: nat, p: nat, width: nat)
    requires p < width && m < Pow2(width)
    ensures SetBit(m, p) < Pow2(width) && ClearBit(m, p) < Pow2(width)
  {
    if p > 0 {
      StaysInWord(m / 2, p - 1, width - 1);
    }
  }

  lemma {:induction false} AboveHas(p: nat, width: nat, q: nat)
    requires p <= width && q < width
    ensures Pow2(p) <= Pow2(width)
    ensures Has(Pow2(width) - Pow2(p), q) <==> p <= q
  {
    Pow2Monotone(p, width);
    var x := Pow2(width) - Pow2(p);
    if p == 0 {
      if q > 0 {
        AboveHas(0, width - 1, q - 1);
        assert x / 2 == Pow2(width - 1) - 1;
      }
    } else {
      Pow2Monotone(p - 1, width - 1);
      assert x == 2 * (Pow2(width - 1) - Pow2(p - 1));
      if q > 0 {
        AboveHas(p - 1, width - 1, q - 1);
      }
    }
  }

  lemma {:induction false} NonZeroHasBit(m: nat, width: nat) returns (p: nat)
    requires 0 < m < Pow2(width)
    ensures p < width && Has(m, p)
  {
    if m % 2 == 1 {
      p := 0;
    } else {
      p := NonZeroHasBit(m / 2, width - 1);
      p := p + 1;
    }
  }

  lemma {:induction false} LeadingZerosSpec(m: nat, seen: nat)
    requires seen <= 32
    ensures seen <= LeadingZeros(m, seen) <= 32
    ensures LeadingZeros(m, seen) < 32 ==> Has(m, PRIORITY_MAX - LeadingZeros(m, seen))
    ensures forall q: nat | PRIORITY_MAX - LeadingZeros(m, seen) < q <= PRIORITY_MAX - seen :: !Has(m, q)
    decreases 32 - seen
  {
    if seen < 32 && !Has(m, PRIORITY_MAX - seen) {
      LeadingZerosSpec(m, seen + 1);
    }
  }

  /** The count-leading-zeros pick is the greatest set bit. */
  lemma HighestSpec(m: nat)
    requires 0 < m < Pow2(32)
    ensures 0 <= Highest(m) <= PRIORITY_MAX
    ensures Has(m, Highest(m))
    ensures forall q: nat | Highest(m) < q <= PRIORITY_MAX :: !Has(m, q)
  {
    var p := NonZeroHasBit(m, 32);
    LeadingZerosSpec(m, 0);
  }

  lemma {:induction false} NoBitsBeyond(m: nat, width: nat, q: nat)
    requires m < Pow2(width) && width <= q
    ensures !Has(m, q)
  {
    if width > 0 {
      NoBitsBeyond(m / 2, width - 1, q - 1);
    } else {
      ZeroHas(q);
    }
  }

  lemma HighestIs(m: nat, p: nat)
    requires Pow2(p) <= m < Pow2(p + 1) && p <= PRIORITY_MAX && Has(m, p)
    ensures Highest(m) == p
  {
    Pow2Monotone(0, p);
    Pow2Monotone(p + 1, 32);
    HighestSpec(m);
    if Highest(m) > p {
      NoBitsBeyond(m, p + 1, Highest(m));
    }
  }

  /** `(m & higher_priority_mask) != 0` says that some bit above `p` is set. */
  lemma AnyAbove(m: nat, p: nat)
    requires p < PRIORITY_MAX && m < Pow2(32)
    ensures And(m, Above(p)) != 0 <==> exists q: nat | p < q <= PRIORITY_MAX :: Has(m, q)
  {
    var both := And(m, Above(p));
    forall q: nat | q <= PRIORITY_MAX
      ensures Has(both, q) <==> p < q && Has(m, q)
    {
      AboveHas(p + 1, 32, q);
      AndHas(m, Above(p), q);
    }
    AndBound(m, Above(p));
    if both != 0 {
      var q := NonZeroHasBit(both, 32);
      assert Has(both, q);
      assert exists r: nat | p < r <= PRIORITY_MAX :: Has(m, r);
    }
    if exists q: nat | p < q <= PRIORITY_MAX :: Has(m, q) {
      var q: nat :| p < q <= PRIORITY_MAX && Has(m, q);
      ZeroHas(q);
      assert Has(both, q);
    }
  }

  lemma {:induction false} AndBound(a: nat, b: nat)
    ensures And(a, b) <= a
  {
    if a != 0 {
      AndBound(a / 2, b / 2);
    }
  }
}
