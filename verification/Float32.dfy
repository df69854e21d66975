/** Probability bounds as binary32 words (IEEE 754-2019 section 3.4): on words 0 to 0x3F800000, integer order is the
    order of the numbers they stand for. */
module Float32 {
  import opened Lattice

  const ONE: nat := 0x3F800000
  const SIGN: nat := 0x80000000
  const FRACTION: nat := 0x800000
  const WORDS: nat := 0x1_0000_0000

  // A float that is not a zero with a sign, an infinity or a NaN stands for its real value.
  datatype Float = Finite(value: real) | NegativeZero | Infinite(negative: bool) | NaN

  datatype Result<T> = Ok(value: T) | Error

  function Pow2(n: nat): (r: nat)
    ensures r > 0
  {
    if n == 0 then 1 else 2 * Pow2(n - 1)
  }

  // The value of a positive finite word in units of 2^-149: subnormals have exponent field 0 and no hidden bit.
  function Units(word: nat): nat {
    var exponent, fraction := word / FRACTION, word % FRACTION;
    if exponent == 0 then fraction else (FRACTION + fraction) * Pow2(exponent - 1)
  }

  function Decode(word: nat): real {
    Units(word) as real / Pow2(149) as real
  }

  // u32_to_float32
  function FromWord(bits: int): Result<Float> {
    if !(0 <= bits < WORDS) then Error else
      var magnitude, negative := bits % SIGN, bits >= SIGN;
      if magnitude > 0x7F800000 then Ok(NaN)
      else if magnitude == 0x7F800000 then Ok(Infinite(negative))
      else if magnitude == 0 && negative then Ok(NegativeZero)
      else Ok(Finite(if negative then -Decode(magnitude) else Decode(magnitude)))
  }

  // --- Order ---

  lemma UnitsNext(w: nat)
    ensures Units(w) < Units(w + 1)
  {
    var e, f := w / FRACTION, w % FRACTION;
    if f + 1 < FRACTION {
      assert (w + 1) / FRACTION == e && (w + 1) % FRACTION == f + 1;
      if e > 0 {
        assert (FRACTION + (f + 1)) * Pow2(e - 1) == (FRACTION + f) * Pow2(e - 1) + Pow2(e - 1);
      }
    } else {
      assert (w + 1) / FRACTION == e + 1 && (w + 1) % FRACTION == 0;
      if e > 0 {
        assert FRACTION * Pow2(e) == (FRACTION + f) * Pow2(e - 1) + Pow2(e - 1);
      }
    }
  }

  lemma {:induction false} UnitsIncrease(v: nat, w: nat)
    requires v < w
    ensures Units(v) < Units(w)
  {
    UnitsNext(w - 1);
    if v < w - 1 { UnitsIncrease(v, w - 1); }
  }

  lemma DivideKeepsOrder(a: nat, b: nat, d: nat)
    requires a < b && d > 0
    ensures a as real / d as real < b as real / d as real
  {}

  // Words are ordered as the numbers they stand for.
  lemma DecodeIncreases(v: nat, w: nat)
    ensures v < w <==> Decode(v) < Decode(w)
    ensures v == w <==> Decode(v) == Decode(w)
  {
    if v < w {
      UnitsIncrease(v, w);
      DivideKeepsOrder(Units(v), Units(w), Pow2(149));
    } else if w < v {
      UnitsIncrease(w, v);
      DivideKeepsOrder(Units(w), Units(v), Pow2(149));
    }
  }

  lemma {:induction false} Pow2Sum(a: nat, b: nat)
    ensures Pow2(a + b) == Pow2(a) * Pow2(b)
  {
    if a > 0 { Pow2Sum(a - 1, b); }
  }

  // The hidden bit's weight is FRACTION units.
  lemma HiddenBit()
    ensures Pow2(23) == FRACTION
  {
    assert Pow2(4) == 16;
    Pow2Sum(4, 4);
    Pow2Sum(8, 4);
    Pow2Sum(12, 8);
    assert Pow2(20) == 0x100000;
    assert Pow2(21) == 2 * Pow2(20);
    assert Pow2(22) == 2 * Pow2(21);
    assert Pow2(23) == 2 * Pow2(22);
  }

  lemma UnitOfOne()
    ensures Units(ONE) == Pow2(149)
  {
    HiddenBit();
    Pow2Sum(23, 126);
    hide Pow2;
  }

  lemma UnitEnds()
    ensures Decode(0) == 0.0 && Decode(ONE) == 1.0
  {
    hide *;
    UnitOfOne();
    UnitOfZero();
    DecodeIs(0);
    DecodeIs(ONE);
    DivideEnds(Pow2(149));
  }

  lemma UnitOfZero()
    ensures Units(0) == 0
  {}

  lemma DecodeIs(w: nat)
    ensures Decode(w) == Units(w) as real / Pow2(149) as real
  {}

  lemma DivideEnds(d: nat)
    requires d > 0
    ensures 0 as real / d as real == 0.0 && d as real / d as real == 1.0
  {}

  // Words up to 0x3F800000 decode into [0,1], larger finite ones above it.
  lemma UnitInterval(w: nat)
    ensures w <= ONE <==> 0.0 <= Decode(w) <= 1.0
    ensures Decode(w) >= 0.0
  {
    UnitEnds();
    DecodeIncreases(ONE, w);
    DecodeIncreases(w, 0);
  }

  function MinReal(a: real, b: real): real {
    if b < a then b else a
  }

  function MaxReal(a: real, b: real): real {
    if a < b then b else a
  }

  // Integer minimum and maximum of stored words are the minimum and maximum of the bounds.
  lemma MinMaxAgree(a: nat, b: nat)
    ensures Decode(Min(a, b)) == MinReal(Decode(a), Decode(b))
    ensures Decode(Max(a, b)) == MaxReal(Decode(a), Decode(b))
  {
    DecodeIncreases(a, b);
    DecodeIncreases(b, a);
  }

  // x lies in the stored interval [lower, upper].
  predicate Inside(x: real, v: Val)
    requires |v| == 2 && v[0] >= 0 && v[1] >= 0
  {
    Decode(v[0]) <= x <= Decode(v[1])
  }

  // Joining stored intervals intersects the intervals of reals they stand for.
  lemma JoinIntersects(a: Val, b: Val, x: real)
    requires IsVal(INTERVAL, a) && IsVal(INTERVAL, b) && forall k :: 0 <= k < 2 ==> a[k] >= 0 && b[k] >= 0
    ensures Inside(x, Join(INTERVAL, a, b)) <==> Inside(x, a) && Inside(x, b)
  {
    MinMaxAgree(a[0], b[0]);
    MinMaxAgree(a[1], b[1]);
  }

  // --- Encoding ---

  // The greatest word up to w that is not above x.
  function Below(x: real, w: nat): (r: nat)
    ensures r <= w
  {
    if w == 0 || Decode(w) <= x then w else Below(x, w - 1)
  }

  // Rounds to nearest, ties to the even word; a significand is even exactly when its word is.
  function Round(x: real): (r: nat)
    ensures r <= ONE
  {
    var w := Below(x, ONE);
    if w == ONE then w else
      var down, up := x - Decode(w), Decode(w + 1) - x;
      if down < up then w else if up < down then w + 1 else w + w % 2
  }

  // float32_to_u32. The range test lets a negative zero through.
  function ToWord(f: Float): Result<nat> {
    match f
    case NegativeZero => Ok(SIGN)
    case Finite(x) => if 0.0 <= x <= 1.0 then Ok(Round(x)) else Error
    case Infinite(_) => Error
    case NaN => Error
  }

  lemma {:induction false} BelowIs(x: real, w: nat)
    requires x >= 0.0
    ensures Decode(Below(x, w)) <= x && forall v :: Below(x, w) < v <= w ==> Decode(v) > x
  {
    hide Decode;
    UnitEnds();
    if !(w == 0 || Decode(w) <= x) { BelowIs(x, w - 1); }
  }

  function Distance(x: real, w: nat): real {
    if Decode(w) < x then x - Decode(w) else Decode(w) - x
  }

  // x lies between the words w and w + 1.
  lemma BelowBrackets(x: real)
    requires 0.0 <= x <= 1.0
    ensures var w := Below(x, ONE); if w == ONE then Decode(w) == x else Decode(w) <= x < Decode(w + 1)
  {
    UnitEnds();
    BelowIs(x, ONE);
    hide Decode, Below;
  }

  lemma EvenAbove(w: nat)
    ensures (w + w % 2) % 2 == 0 && w <= w + w % 2 <= w + 1
  {}

  // No word up to 0x3F800000 is nearer, and an odd word is never chosen over one as near.
  lemma RoundIsNearest(x: real, v: nat)
    requires 0.0 <= x <= 1.0 && v <= ONE
    ensures Distance(x, Round(x)) <= Distance(x, v)
    ensures Distance(x, Round(x)) == Distance(x, v) && v != Round(x) ==> Round(x) % 2 == 0
  {
    var w := Below(x, ONE);
    BelowBrackets(x);
    EvenAbove(w);
    hide Decode, Below;
    DecodeIncreases(v, w);
    DecodeIncreases(w, v);
    if w < ONE {
      DecodeIncreases(w + 1, v);
      DecodeIncreases(v, w + 1);
      DecodeIncreases(w, w + 1);
    }
  }

  // Encoding keeps order, up to rounding.
  lemma RoundMonotone(x: real, y: real)
    requires 0.0 <= x <= y <= 1.0
    ensures Round(x) <= Round(y)
  {
    hide Decode, Round;
    RoundIsNearest(x, Round(y));
    RoundIsNearest(y, Round(x));
    DecodeIncreases(Round(y), Round(x));
  }

  lemma RoundOfWord(w: nat)
    requires w <= ONE
    ensures Round(Decode(w)) == w
  {
    hide Decode, Round;
    UnitInterval(w);
    RoundIsNearest(Decode(w), w);
    DecodeIncreases(Round(Decode(w)), w);
  }

  // Encoding undoes decoding exactly on the words of [0,1] and on that of negative zero.
  lemma RoundTripIff(bits: int)
    ensures (FromWord(bits).Ok? && ToWord(FromWord(bits).value) == Ok(bits)) <==> (0 <= bits <= ONE || bits == SIGN)
  {
    hide Decode, Round;
    if 0 <= bits < WORDS {
      var magnitude := bits % SIGN;
      UnitInterval(magnitude);
      UnitEnds();
      DecodeIncreases(0, magnitude);
      if magnitude <= ONE { RoundOfWord(magnitude); }
    }
  }

  // The value a float compares as; infinities and NaN are not bounds.
  function Compared(f: Float): real
    requires f.Finite? || f.NegativeZero?
  {
    match f
    case Finite(x) => x
    case NegativeZero => 0.0
  }

  // The word order of two accepted bounds follows their order exactly when no negative zero stands first.
  lemma WordOrderIff(f: Float, g: Float)
    requires ToWord(f).Ok? && ToWord(g).Ok? && Compared(f) <= Compared(g)
    ensures ToWord(f).value <= ToWord(g).value <==> (f.NegativeZero? ==> g.NegativeZero?)
  {
    hide Decode, Round;
    if f.Finite? && g.Finite? { RoundMonotone(f.value, g.value); }
    if f.Finite? { RoundIsNearest(f.value, 0); }
    if g.Finite? { RoundIsNearest(g.value, 0); }
  }
}
