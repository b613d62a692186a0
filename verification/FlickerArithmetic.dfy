/** The saturating fixed-point arithmetic of the flickermeter: every limb and
    fast-path computation is the exact integer operation, clamped, with the
    overflow flag raised exactly when the clamp changed the result. */
module FlickerArithmetic {
  import opened Words
  import opened WideArithmetic

  const HALF: int := 0x2000_0000

  // A value held to a limit, and whether the limit was passed.
  datatype Held = Held(value: int, overflow: bool)

  // ---- Wide sums -------------------------------------------------------------

  function AddWide(value: Wide, addend: u64): (sum: Wide)
    ensures Value(value) + addend < B128 ==> Value(sum) == Value(value) + addend
  {
    var low := Add64(value.low, addend);
    CarryOut(value.low, addend);
    Wide(Add64(value.high, if low < value.low then 1 else 0), low)
  }

  function CompareWide(left: Wide, right: Wide): (order: int)
    ensures order < 0 <==> Value(left) < Value(right)
  {
    if left.high != right.high then (if left.high < right.high then -1 else 1)
    else if left.low != right.low then (if left.low < right.low then -1 else 1)
    else 0
  }

  // ---- Products, rounded and shifted -------------------------------------------

  lemma ShiftedLimbs(high: u64, low: u64, p: nat, q: nat)
    requires p > 0 && q > 0 && p * q == B64
    ensures high / p == 0 ==> 0 <= high * q + low / p < B64 && (high * B64 + low) / p == high * q + low / p
    ensures high / p != 0 ==> (high * B64 + low) / p >= B64
  {
    var r := low / p;
    assert low == r * p + low % p;
    if high / p == 0 {
      assert high < p;
      if r >= q { MulLe(q, r, p); }
      MulLe(high, p - 1, q);
      Reassociate(high, q, r, p);
      DivUnique(high * B64 + low, p, high * q + r);
    } else {
      assert high == high / p * p + high % p;
      MulLe(1, high / p, p);
      MulLe(p, high, B64);
      QuotientAtLeast(high * B64 + low, p, B64);
    }
  }

  lemma Reassociate(high: int, q: int, r: int, p: int)
    requires p * q == B64
    ensures (high * q + r) * p == high * B64 + r * p
    ensures (p - 1) * q == B64 - q
  {
    assert (high * q + r) * p == high * (q * p) + r * p;
  }

  lemma QuotientAtLeast(n: int, p: nat, least: int)
    requires p > 0 && least * p <= n
    ensures n / p >= least
  {
    assert n == n / p * p + n % p;
    if n / p < least { MulLe(n / p + 1, least, p); }
  }

  lemma QuotientAtMost(n: int, p: nat, most: int)
    requires p > 0 && n < (most + 1) * p
    ensures n / p <= most
  {
    assert n == n / p * p + n % p;
    if n / p > most { MulLe(most + 1, n / p, p); }
  }

  function HoldBelow(exact: int, limit: u64): Held { Held(Min(exact, limit), exact > limit) }

  function ShiftWide(value: Wide, shift: nat, limit: u64): (r: Held)
    requires 0 < shift < 64
    ensures Pow2(shift) > 0 && r == HoldBelow(Value(value) / Pow2(shift), limit)
  {
    Pow2Positive(shift); Pow2Positive(64 - shift);
    Pow2Sum(shift, 64 - shift); Pow2At32();
    ShiftedLimbs(value.high, value.low, Pow2(shift), Pow2(64 - shift));
    if value.high / Pow2(shift) != 0 then Held(limit, true)
    else
      var shifted := value.high * Pow2(64 - shift) + value.low / Pow2(shift);
      if shifted > limit then Held(limit, true) else Held(shifted, false)
  }

  lemma ProductFits(left: u64, right: u64, rounding: u64)
    ensures 0 <= left * right && left * right + rounding < B128
  {
    MulLeBoth(left, U64_MAX, right, U64_MAX);
  }

  // The narrow path multiplies in one word; the wide path in four. They agree.
  function MultiplyShift(left: u64, right: u64, shift: nat, limit: u64, rounding: u64): (r: Held)
    requires 0 < shift < 64
    ensures Pow2(shift) > 0
    ensures r == HoldBelow((left * right + rounding) / Pow2(shift), limit)
  {
    Pow2Positive(shift);
    ProductFits(left, right, rounding);
    if left < B32 && right < B32 && left * right <= U64_MAX - rounding then
      HoldBelow((left * right + rounding) / Pow2(shift), limit)
    else
      ShiftWide(AddWide(MultiplyU64(left, right), rounding), shift, limit)
  }

  // ---- Normalisation to the reference ----------------------------------------

  const NORMAL_LIMIT: int := 0x8_0000
  const DIVISOR: int := 0x4000_0000

  lemma Pow2At30()
    ensures Pow2(30) == DIVISOR
  {
    Pow2Sum(15, 15);
    Pow2At15();
  }

  lemma Pow2At15()
    ensures Pow2(15) == 0x8000
  {
    Pow2Sum(8, 7);
    assert Pow2(8) == 256 && Pow2(7) == 128;
  }

  function Normalize(sample: i32, reciprocal: u64): Held {
    var absolute: u64 := Abs(sample);
    var rounding: u64 := if sample < 0 then DIVISOR - 1 else 0;
    var held :=
      if reciprocal < B32 then HoldBelow((absolute * reciprocal + rounding) / DIVISOR, NORMAL_LIMIT)
      else MultiplyShift(absolute, reciprocal, 30, NORMAL_LIMIT, rounding);
    if sample < 0 then Held(-held.value, held.overflow) else held
  }

  // The in-word product of the fast path fits 64 bits.
  lemma FastNormalizeFits(sample: i32, reciprocal: u64)
    requires reciprocal < B32
    ensures 0 <= Abs(sample) * reciprocal + DIVISOR - 1 < B64
  {
    MulLeBoth(Abs(sample), 0x8000_0000, reciprocal, B32 - 1);
  }

  // Normalisation is floor division by 2^30, held within eight nominal units.
  lemma NormalizeIsFloor(sample: i32, reciprocal: u64)
    ensures var exact := sample * reciprocal / DIVISOR;
            && Normalize(sample, reciprocal).overflow == (Abs(exact) > NORMAL_LIMIT)
            && Normalize(sample, reciprocal).value == Max(-NORMAL_LIMIT, Min(exact, NORMAL_LIMIT))
  {
    Pow2At30();
    NormalizeMagnitude(sample, reciprocal);
    hide Pow2;
    if sample < 0 {
      FloorOfNegative(Abs(sample) * reciprocal, DIVISOR);
      NegatedProduct(Abs(sample), reciprocal);
    } else {
      QuotientAtLeast(sample * reciprocal, DIVISOR, 0);
    }
  }

  lemma NormalizeMagnitude(sample: i32, reciprocal: u64)
    ensures var rounding := if sample < 0 then DIVISOR - 1 else 0;
            var held := HoldBelow((Abs(sample) * reciprocal + rounding) / DIVISOR, NORMAL_LIMIT);
            Normalize(sample, reciprocal) == if sample < 0 then Held(-held.value, held.overflow) else held
    ensures 0 <= Abs(sample) * reciprocal
  {
    Pow2At30();
    hide Pow2;
  }

  lemma FloorOfNegative(n: int, d: nat)
    requires d > 0
    ensures -n / d == -((n + d - 1) / d)
  {
    var q := (n + d - 1) / d;
    assert n + d - 1 == q * d + (n + d - 1) % d;
    NegatedProduct(q, d);
    DivUnique(-n, d, -q);
  }

  lemma NegatedProduct(q: int, d: int)
    ensures -q * d == -(q * d)
  {
  }

  // ---- The three-term saturating sum --------------------------------------------

  // Positive and negative magnitudes are gathered apart.
  function AccumulateSigned(sides: (Wide, Wide), value: i64, negate: bool): (r: (Wide, Wide))
    requires Value(sides.0) <= 2 * B64 && Value(sides.1) <= 2 * B64
    ensures Value(r.0) - Value(r.1) == Value(sides.0) - Value(sides.1) + if negate then -(value as int) else value
    ensures Value(r.0) <= Value(sides.0) + B64 / 2 && Value(r.1) <= Value(sides.1) + B64 / 2
  {
    var magnitude: u64 := Abs(value);
    if (value < 0) != negate then (sides.0, AddWide(sides.1, magnitude))
    else (AddWide(sides.0, magnitude), sides.1)
  }

  ghost function HoldSigned(exact: int): Held { Held(Clamp64(exact), exact != Clamp64(exact)) }

  function SaturatingExpression(first: i64, negateFirst: bool, second: i64, negateSecond: bool,
    third: i64, negateThird: bool): (r: Held)
    ensures r == HoldSigned((if negateFirst then -(first as int) else first) +
                            (if negateSecond then -(second as int) else second) +
                            (if negateThird then -(third as int) else third))
  {
    var one := AccumulateSigned((ZERO, ZERO), first, negateFirst);
    var two := AccumulateSigned(one, second, negateSecond);
    var (positive, negative) := AccumulateSigned(two, third, negateThird);
    HeldDifference(positive, negative)
  }

  function HeldDifference(positive: Wide, negative: Wide): (r: Held)
    ensures r == HoldSigned(Value(positive) - Value(negative))
  {
    var resultNegative := CompareWide(positive, negative) < 0;
    var difference := if resultNegative then Subtract(negative, positive) else Subtract(positive, negative);
    var limit: u64 := if resultNegative then 0x8000_0000_0000_0000 else I64_MAX;
    HeldMagnitude(difference, resultNegative);
    if difference.high != 0 || difference.low > limit then
      Held(if resultNegative then I64_MIN else I64_MAX, true)
    else Held(if resultNegative then -(difference.low as int) else difference.low, false)
  }

  lemma HeldMagnitude(magnitude: Wide, negative: bool)
    ensures var limit := if negative then 0x8000_0000_0000_0000 else I64_MAX as int;
            var exact := if negative then -(Value(magnitude) as int) else Value(magnitude);
            HoldSigned(exact) ==
              if magnitude.high != 0 || magnitude.low > limit then Held(if negative then I64_MIN else I64_MAX, true)
              else Held(if negative then -(magnitude.low as int) else magnitude.low, false)
  {
  }

  // ---- The fixed-point product -----------------------------------------------------

  // Division by 2^30, rounded to nearest with halves away from zero.
  function RoundAway(n: int): int {
    if n < 0 then -((-n + HALF) / DIVISOR) else (n + HALF) / DIVISOR
  }

  lemma RoundAwayIsNearest(n: int)
    ensures Abs(RoundAway(n) * DIVISOR - n) <= HALF
    ensures Abs(RoundAway(n) * DIVISOR - n) == HALF ==> Abs(RoundAway(n) * DIVISOR) > Abs(n)
  {
  }

  function MultiplyQ30(left: i64, right: i64): (r: Held)
    ensures r == HoldSigned(RoundAway(left * right))
  {
    var negative := (left < 0) != (right < 0);
    var limit: u64 := if negative then 0x8000_0000_0000_0000 else I64_MAX;
    var l: u64 := Abs(left);
    var r: u64 := Abs(right);
    Pow2At30();
    SignOfProduct(left, right);
    MulLeBoth(l, 0x8000_0000_0000_0000, r, 0x8000_0000_0000_0000);
    var rounded :=
      if l < B32 && r < B32 then
        HalfProduct(l, r);
        var product: u64 := l * r + HALF;
        HoldBelow(product / DIVISOR, limit)
      else MultiplyShift(l, r, 30, limit, HALF);
    HeldProduct(left * right, l * r, negative, limit, rounded);
    if negative then Held(-rounded.value, rounded.overflow) else rounded
  }

  lemma SignOfProduct(left: int, right: int)
    ensures left * right == if (left < 0) != (right < 0) then -(Abs(left) * Abs(right)) else Abs(left) * Abs(right)
  {
  }

  lemma HeldProduct(exact: int, magnitude: int, negative: bool, limit: u64, rounded: Held)
    requires magnitude >= 0
    requires exact == if negative then -magnitude else magnitude
    requires limit == if negative then 0x8000_0000_0000_0000 else I64_MAX
    requires rounded == HoldBelow((magnitude + HALF) / DIVISOR, limit)
    ensures HoldSigned(RoundAway(exact)) == Held(if negative then -rounded.value else rounded.value, rounded.overflow)
  {
  }
}
