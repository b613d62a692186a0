/** The magnitude-weighted phase vectors of the harmonic tiers: table sine,
    128-bit two's-complement accumulation and the scaling before arctangent. */
module PhaseVector {
  import opened Words
  import opened WideArithmetic

  // A quarter-wave table: 1025 samples of amplitude at most 2^17.
  predicate QuarterTable(table: seq<int>) {
    |table| == 1025 && forall k :: 0 <= k < 1025 ==> 0 <= table[k] <= 0x2_0000
  }

  // The waveform value at one of the 4096 table points of a turn.
  function TablePoint(table: seq<int>, index: nat): (value: int)
    requires QuarterTable(table) && index < 4096
    ensures -0x2_0000 <= value <= 0x2_0000
  {
    var quadrant, offset := index / 1024, index % 1024;
    var tableIndex := if quadrant % 2 == 0 then offset else 1024 - offset;
    if quadrant / 2 % 2 == 0 then table[tableIndex] else -table[tableIndex]
  }

  // Linear interpolation never leaves the interval of its two end points.
  function SineQ37(table: seq<int>, phase: u32): (value: int)
    requires QuarterTable(table)
    ensures Abs(value) <= 0x20_0000_0000
    ensures var first := TablePoint(table, phase / 0x10_0000);
            var second := TablePoint(table, (phase / 0x10_0000 + 1) % 4096);
            Min(first, second) * 0x10_0000 <= value <= Max(first, second) * 0x10_0000
  {
    var point, fraction := phase / 0x10_0000, phase % 0x10_0000;
    var first := TablePoint(table, point);
    var second := TablePoint(table, (point + 1) % 4096);
    InterpolationBetween(first, second, fraction);
    first * 0x10_0000 + (second - first) * fraction
  }

  lemma InterpolationBetween(first: int, second: int, fraction: nat)
    requires fraction < 0x10_0000
    ensures var value := first * 0x10_0000 + (second - first) * fraction;
            Min(first, second) * 0x10_0000 <= value <= Max(first, second) * 0x10_0000
  {
    if first <= second {
      MulLeBoth(second - first, second - first, fraction, 0x10_0000);
    } else {
      MulLeBoth(first - second, first - second, fraction, 0x10_0000);
      assert (second - first) * fraction == -((first - second) * fraction);
    }
  }

  // One weighted component is added modulo 2^128.
  function AddPhaseProduct(sum: Wide, magnitude: u64, component: i64): (r: Wide)
    requires component != I64_MIN
    ensures Value(r) == (Value(sum) + magnitude * component) % B128
  {
    if component >= 0 then
      AddWrapped(sum, MultiplyU64(magnitude, component))
    else
      NegatedProduct(magnitude, component);
      SubtractWrapped(sum, MultiplyU64(magnitude, -component))
  }

  lemma NegatedProduct(x: int, y: int)
    ensures x * y == -(x * -y)
  {
  }

  // Limb addition with the carry taken from the low limb's wrap-around.
  function AddWrapped(sum: Wide, product: Wide): (r: Wide)
    ensures Value(r) == (Value(sum) + Value(product)) % B128
  {
    var low := Add64(sum.low, product.low);
    var carry := if low < sum.low then 1 else 0;
    CarryOut(sum.low, product.low);
    var high := Add64(Add64(sum.high, product.high), carry);
    CarryOut(sum.high, product.high);
    CarryOut(Add64(sum.high, product.high), carry);
    ghost var wrap := (sum.high + product.high + carry - high) / B64;
    assert Value(sum) + Value(product) == wrap * B128 + Value(Wide(high, low));
    ModUnique(Value(sum) + Value(product), B128, wrap, Value(Wide(high, low)));
    Wide(high, low)
  }

  function SubtractWrapped(sum: Wide, product: Wide): (r: Wide)
    ensures Value(r) == (Value(sum) - Value(product)) % B128
  {
    var borrow := if sum.low < product.low then 1 else 0;
    var low: u64 := (sum.low - product.low) % B64;
    var high: u64 := ((sum.high - product.high) % B64 - borrow) % B64;
    assert sum.low - product.low == low - borrow * B64;
    HighLimbBorrow(sum.high, product.high, borrow, high);
    ghost var wrap := (sum.high - product.high - borrow - high) / B64;
    assert Value(sum) - Value(product) == wrap * B128 + Value(Wide(high, low));
    ModUnique(Value(sum) - Value(product), B128, wrap, Value(Wide(high, low)));
    Wide(high, low)
  }

  lemma HighLimbBorrow(x: u64, y: u64, borrow: int, high: u64)
    requires 0 <= borrow <= 1 && high == ((x - y) % B64 - borrow) % B64
    ensures (x - y - borrow - high) % B64 == 0
    ensures x - y - borrow - high == (x - y - borrow - high) / B64 * B64
  {
    var d := x - y;
    assert d % B64 == if d < 0 then d + B64 else d;
    var e := d % B64 - borrow;
    assert e % B64 == if e < 0 then e + B64 else e;
  }

  // Residues determine the signed reading as long as the exact sum fits.
  lemma SignedExact(w: Wide, exact: int)
    requires Value(w) == exact % B128
    requires -(B128 / 2) <= exact < B128 / 2
    ensures SignedValue(w) == exact
  {
    if exact < 0 {
      ModUnique(exact, B128, -1, exact + B128);
    } else {
      ModUnique(exact, B128, 0, exact);
    }
  }

  function PhaseAbsolute(value: Wide): (r: Wide)
    ensures Value(r) == Abs(SignedValue(value))
  {
    if value.high < 0x8000_0000_0000_0000 then value
    else
      var low: u64 := (B64 - value.low) % B64;
      Wide(B64 - 1 - value.high + (if low == 0 then 1 else 0), low)
  }

  // ---- Scaling to the arctangent's operand width -----------------------

  function SignedWord(word: u64): i64 {
    if word < 0x8000_0000_0000_0000 then word else word - B64
  }

  lemma FloorSplit(high: int, low: nat, d: nat, e: nat)
    requires d > 0 && e > 0 && d * e == B64 && low < B64
    ensures (high * B64 + low) / d == high * e + low / d
  {
    var q := low / d;
    assert low == q * d + low % d;
    assert high * B64 == high * e * d;
    assert (high * e + q) * d == high * e * d + q * d;
    DivUnique(high * B64 + low, d, high * e + q);
  }

  // The top word after an arithmetic right shift by less than one limb.
  function ShiftedLow(value: Wide, shift: nat): (word: u64)
    requires shift < 64
    ensures Pow2(shift) > 0 && word == SignedValue(value) / Pow2(shift) % B64
  {
    Pow2Positive(shift); Pow2Positive(64 - shift);
    Pow2Sum(shift, 64 - shift); Pow2At32();
    var d, e := Pow2(shift), Pow2(64 - shift);
    var signedHigh := SignedWord(value.high);
    FloorSplit(signedHigh, value.low, d, e);
    LowLimbQuotient(value.low, d, e);
    HighPartResidue(value.high, signedHigh, value.low / d, d, e);
    (value.low / d + value.high * e) % B64
  }

  lemma LowLimbQuotient(low: u64, d: nat, e: nat)
    requires d > 0 && d * e == B64
    ensures 0 <= low / d < e
  {
    var q := low / d;
    assert q * d <= low;
    if q >= e { MulLe(e, q, d); }
  }

  lemma HighPartResidue(high: u64, signedHigh: int, quotient: nat, d: nat, e: nat)
    requires signedHigh == SignedWord(high)
    ensures (quotient + high * e) % B64 == (signedHigh * e + quotient) % B64
  {
    if high != signedHigh {
      assert high * e == signedHigh * e + e * B64;
      ModShift(signedHigh * e + quotient, e);
    }
  }

  lemma ModShift(x: int, k: int)
    ensures (x + k * B64) % B64 == x % B64
  {
    ModUnique(x + k * B64, B64, x / B64 + k, x % B64);
  }

  // Both components are shifted by one power of two; when the exact floor
  // quotient fits in a word the result is that quotient.
  function ShiftedPhase(value: Wide, shift: nat): (r: i64)
    requires shift < 128
    ensures Pow2(shift) > 0
    ensures var exact := SignedValue(value) / Pow2(shift);
            I64_MIN <= exact <= I64_MAX ==> r == exact
  {
    Pow2Positive(shift);
    if shift < 64 then
      WordRoundTrip(SignedValue(value) / Pow2(shift));
      SignedWord(ShiftedLow(value, shift))
    else
      Pow2Sum(64, shift - 64); Pow2At32(); Pow2Positive(shift - 64);
      HighLimbShift(SignedWord(value.high), value.low, Pow2(shift - 64));
      ShiftStaysInWord(SignedWord(value.high), Pow2(shift - 64));
      SignedWord(value.high) / Pow2(shift - 64)
  }

  lemma WordRoundTrip(exact: int)
    ensures I64_MIN <= exact <= I64_MAX ==> SignedWord(exact % B64) == exact
  {
  }

  lemma HighLimbShift(signedHigh: int, low: u64, d: nat)
    requires d > 0
    ensures B64 * d > 0 && (signedHigh * B64 + low) / (B64 * d) == signedHigh / d
  {
    var q, r := signedHigh / d, signedHigh % d;
    assert signedHigh == q * d + r;
    assert q * d * B64 == q * (B64 * d);
    assert (r + 1) * B64 <= d * B64;
    DivUnique(signedHigh * B64 + low, B64 * d, q);
  }

  lemma ShiftStaysInWord(x: i64, d: nat)
    requires d > 0
    ensures I64_MIN <= x / d <= I64_MAX
  {
    var q, r := x / d, x % d;
    assert x == q * d + r && 0 <= r < d;
    if x >= 0 {
      assert q >= 0;
      MulLe(1, d, q);
    } else {
      NegativeQuotient(x, d, q, r);
    }
  }

  lemma NegativeQuotient(x: int, d: nat, q: int, r: nat)
    requires x < 0 && d > 0 && x == q * d + r && r < d
    ensures x <= q < 0
  {
    if q >= 0 { MulLe(0, q, d); }
    if q < x {
      MulLe(q, x - 1, d);
      MulLe(1, d, 1 - x);
    }
  }

  // The position of the most significant set bit, by descending scan.
  method MostSignificantBit(w: Wide) returns (bit: nat)
    requires Value(w) > 0
    ensures bit < 128 && Pow2(bit) <= Value(w) < Pow2(bit + 1)
  {
    var limb := if w.high != 0 then w.high else w.low;
    var b := 63;
    Pow2At32();
    while limb / Bit(b) % 2 == 0
      invariant 0 <= b < 64 && 0 < limb < Pow2(b + 1)
      decreases b
    {
      BitTest(limb, b);
      b := b - 1;
    }
    BitTest(limb, b);
    bit := if w.high != 0 then 64 + b else b;
    if w.high != 0 {
      Pow2Sum(64, b); Pow2Sum(64, b + 1);
      HighLimbBits(w.high, w.low, Pow2(b), Pow2(b + 1));
    }
  }

  lemma HighLimbBits(high: u64, low: u64, p: nat, q: nat)
    requires p <= high < q
    ensures B64 * p <= high * B64 + low < B64 * q
  {
  }

  // The mask with one bit set.
  function Bit(n: nat): (mask: nat)
    requires n < 64
    ensures mask == Pow2(n) && mask > 0
  {
    if n == 0 then 1 else 2 * Bit(n - 1)
  }

  lemma BitTest(limb: u64, b: nat)
    requires b < 64 && limb < Pow2(b + 1)
    ensures Bit(b) > 0
    ensures limb / Bit(b) % 2 == 0 <==> limb < Pow2(b)
  {
    var m := Bit(b);
    assert Pow2(b + 1) == 2 * m;
    if limb < m { DivUnique(limb, m, 0); } else { DivUnique(limb, m, 1); }
  }

  // The scaling that precedes the arctangent: it rejects exactly the zero
  // vector, keeps one common shift for both components, and leaves the larger
  // one with full precision below the sign bit.
  method NormalizePhase(re: Wide, im: Wide)
    returns (valid: bool, scaledReal: i64, scaledImag: i64, shift: nat)
    ensures valid <==> SignedValue(re) != 0 || SignedValue(im) != 0
    ensures shift < 128 && Pow2(shift) > 0
    ensures valid ==> scaledReal == SignedValue(re) / Pow2(shift)
    ensures valid ==> scaledImag == SignedValue(im) / Pow2(shift)
    ensures valid && shift != 0 ==>
              Pow2(61) <= Max(Abs(SignedValue(re)), Abs(SignedValue(im))) / Pow2(shift) < Pow2(62)
  {
    var realAbs := PhaseAbsolute(re);
    var imagAbs := PhaseAbsolute(im);
    var dominant := if LessEqual(realAbs, imagAbs) then imagAbs else realAbs;
    valid, scaledReal, scaledImag, shift := false, 0, 0, 0;
    assert Pow2(0) == 1;
    if dominant.high == 0 && dominant.low == 0 {
      return;
    }
    var msb := MostSignificantBit(dominant);
    shift := if msb > 61 then msb - 61 else 0;
    ScaledRange(SignedValue(re), Value(dominant), msb, shift);
    ScaledRange(SignedValue(im), Value(dominant), msb, shift);
    scaledReal := ShiftedPhase(re, shift);
    scaledImag := ShiftedPhase(im, shift);
    if scaledReal == 0 && scaledImag == 0 {
      DominantSurvives(SignedValue(re), SignedValue(im), Value(dominant), msb, shift);
      return;
    }
    if shift != 0 {
      DominantPrecision(Value(dominant), msb, shift);
    }
    valid := true;
  }

  lemma ScaledRange(x: int, dominant: nat, msb: nat, shift: nat)
    requires Abs(x) <= dominant < Pow2(msb + 1)
    requires shift == (if msb > 61 then msb - 61 else 0)
    ensures Pow2(shift) > 0 && I64_MIN <= x / Pow2(shift) <= I64_MAX
  {
    Pow2Positive(shift);
    var d := Pow2(shift);
    Pow2At62();
    if msb > 61 {
      Pow2Sum(shift, 62);
    } else {
      Pow2Monotone(msb + 1, 62);
    }
    QuotientRange(x, d, Pow2(62));
  }

  lemma QuotientRange(x: int, d: nat, bound: int)
    requires d > 0 && bound >= 0 && Abs(x) <= d * bound
    ensures -bound <= x / d <= bound
  {
    var q, r := x / d, x % d;
    assert x == q * d + r && 0 <= r < d;
    assert (bound + 1) * d == d * bound + d && (-bound - 1) * d == -(d * bound) - d;
    if q > bound { MulLe(bound + 1, q, d); }
    if q < -bound { MulLe(q, -bound - 1, d); }
  }

  lemma Pow2At62()
    ensures Pow2(62) == 0x4000_0000_0000_0000
  {
    Pow2At32();
    assert Pow2(64) == 4 * Pow2(62);
  }

  lemma {:induction false} Pow2Monotone(a: nat, b: nat)
    requires a <= b
    ensures Pow2(a) <= Pow2(b)
  {
    Pow2Sum(a, b - a);
    Pow2Positive(b - a);
    MulLeBoth(Pow2(a), Pow2(a), 1, Pow2(b - a));
  }

  lemma DominantPrecision(dominant: nat, msb: nat, shift: nat)
    requires msb > 61 && shift == msb - 61 && Pow2(msb) <= dominant < Pow2(msb + 1)
    ensures Pow2(shift) > 0 && Pow2(61) <= dominant / Pow2(shift) < Pow2(62)
  {
    Pow2Positive(shift);
    Pow2Sum(shift, 61);
    Pow2Sum(shift, 62);
    QuotientBracket(dominant, Pow2(shift), Pow2(61), Pow2(62));
  }

  lemma QuotientBracket(n: nat, d: nat, low: nat, high: nat)
    requires d > 0 && d * low <= n < d * high
    ensures low <= n / d < high
  {
    var q := n / d;
    assert q * d <= n < (q + 1) * d;
    if q < low { MulLe(q + 1, low, d); }
    if q >= high { MulLe(high, q, d); }
  }

  lemma DominantSurvives(re: int, im: int, dominant: nat, msb: nat, shift: nat)
    requires dominant == Max(Abs(re), Abs(im)) && dominant > 0
    requires Pow2(msb) <= dominant < Pow2(msb + 1)
    requires shift == (if msb > 61 then msb - 61 else 0)
    ensures Pow2(shift) > 0 && (re / Pow2(shift) != 0 || im / Pow2(shift) != 0)
  {
    Pow2Positive(shift);
    var d := Pow2(shift);
    if shift == 0 {
      assert Pow2(0) == 1;
    } else {
      Pow2Monotone(shift, msb);
    }
    var x := if Abs(re) == dominant then re else im;
    NonZeroQuotient(x, d);
  }

  lemma NonZeroQuotient(x: int, d: nat)
    requires d > 0 && Abs(x) >= d
    ensures x / d != 0
  {
    var q := x / d;
    assert x == q * d + x % d;
  }
}
