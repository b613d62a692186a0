/** The two-limb arithmetic of the harmonic tiers: each limb operation refines
    the one-line integer operation it stands for. */
module WideArithmetic {
  import opened Words

  // One hundred and twenty-eight bits as two 64-bit limbs.
  datatype Wide = Wide(high: u64, low: u64)

  const ZERO := Wide(0, 0)
  const SATURATED := Wide(U64_MAX, U64_MAX)

  ghost function Value(w: Wide): (v: nat)
    ensures v < B128
  {
    w.high * B64 + w.low
  }

  // The two's-complement reading of the same limbs.
  ghost function SignedValue(w: Wide): int {
    if w.high < 0x8000_0000_0000_0000 then Value(w) else Value(w) - B128
  }

  lemma PartsOfProduct(lh: nat, ll: nat, rh: nat, rl: nat, b: nat)
    ensures (lh * b + ll) * (rh * b + rl) == lh * rh * (b * b) + (ll * rh + lh * rl) * b + ll * rl
  {
    assert (lh * b + ll) * (rh * b + rl) == lh * b * (rh * b) + lh * b * rl + ll * (rh * b) + ll * rl;
    assert lh * b * (rh * b) == lh * rh * (b * b);
    assert lh * b * rl == lh * rl * b;
    assert ll * (rh * b) == ll * rh * b;
  }

  lemma HalfProduct(x: nat, y: nat)
    requires x < B32 && y < B32
    ensures x * y <= (B32 - 1) * (B32 - 1)
  {
    MulLeBoth(x, B32 - 1, y, B32 - 1);
  }

  // Four half-word products and one carry column make the exact product.
  function MultiplyU64(left: u64, right: u64): (product: Wide)
    ensures Value(product) == left * right
  {
    var leftLow, leftHigh := left % B32, left / B32;
    var rightLow, rightHigh := right % B32, right / B32;
    HalfProduct(leftLow, rightLow); HalfProduct(leftLow, rightHigh);
    HalfProduct(leftHigh, rightLow); HalfProduct(leftHigh, rightHigh);
    var productLow: u64 := leftLow * rightLow;
    var cross0: u64 := leftLow * rightHigh;
    var cross1: u64 := leftHigh * rightLow;
    var productHigh: u64 := leftHigh * rightHigh;
    var middle: u64 := productLow / B32 + cross0 % B32 + cross1 % B32;
    var high := productHigh + cross0 / B32 + cross1 / B32 + middle / B32;
    var low: u64 := middle % B32 * B32 + productLow % B32;
    PartsOfProduct(leftHigh, leftLow, rightHigh, rightLow, B32);
    assert high * B64 + low == left * right;
    HighLimbFits(left, right, high, low);
    Wide(high, low)
  }

  lemma HighLimbFits(left: u64, right: u64, high: int, low: u64)
    requires high * B64 + low == left * right
    ensures 0 <= high < B64
  {
    MulLeBoth(left, B64 - 1, right, B64 - 1);
  }

  // A wrapped sum is smaller than its operand exactly when a carry left it.
  lemma CarryOut(x: u64, y: u64)
    ensures x + y == (if Add64(x, y) < x then B64 else 0) + Add64(x, y)
  {
  }

  // Checked addition: the sum modulo 2^128 and whether it was exact.
  function AddChecked(left: Wide, right: Wide): (r: (Wide, bool))
    ensures r.1 <==> Value(left) + Value(right) < B128
    ensures Value(r.0) == (Value(left) + Value(right)) % B128
  {
    var low := Add64(left.low, right.low);
    var carry := if low < left.low then 1 else 0;
    var highWithoutCarry := Add64(left.high, right.high);
    var overflow := highWithoutCarry < left.high || (highWithoutCarry == U64_MAX && carry != 0);
    var high := Add64(highWithoutCarry, carry);
    CarryOut(left.low, right.low);
    CarryOut(left.high, right.high);
    CarryOut(highWithoutCarry, carry);
    ghost var wrap := if overflow then 1 else 0;
    assert left.high + right.high + carry == wrap * B64 + high;
    assert Value(left) + Value(right) == wrap * B128 + Value(Wide(high, low));
    ModUnique(Value(left) + Value(right), B128, wrap, Value(Wide(high, low)));
    (Wide(high, low), !overflow)
  }

  predicate LessEqual(left: Wide, right: Wide)
    ensures LessEqual(left, right) <==> Value(left) <= Value(right)
  {
    left.high < right.high || (left.high == right.high && left.low <= right.low)
  }

  // ---- Schoolbook division by a 32-bit divisor -------------------------

  ghost function DigitsValue(d: seq<u32>): nat {
    if d == [] then 0 else DigitsValue(d[..|d| - 1]) * B32 + d[|d| - 1]
  }

  lemma FourDigits(d: seq<u32>)
    requires |d| == 4
    ensures DigitsValue(d) == (d[0] * B32 + d[1]) * B64 + d[2] * B32 + d[3]
  {
    assert d[..3][..2] == d[..2] && d[..2][..1] == d[..1] && d[..1][..0] == [];
    assert DigitsValue(d[..1]) == d[0];
    assert DigitsValue(d[..2]) == d[0] * B32 + d[1];
    assert DigitsValue(d[..3]) == (d[0] * B32 + d[1]) * B32 + d[2];
  }

  // The long-division invariant: what the quotient so far leaves over.
  ghost predicate Divided(dividend: seq<u32>, divisor: u32, quotient: seq<u32>, remainder: nat) {
    && remainder < divisor
    && DigitsValue(dividend) == DigitsValue(quotient) * divisor + remainder
  }

  lemma DivideDigit(dividend: seq<u32>, divisor: u32, quotient: seq<u32>, remainder: nat,
    digit: u32, q: u32, r: nat)
    requires Divided(dividend, divisor, quotient, remainder)
    requires r < divisor && remainder * B32 + digit == q * divisor + r
    ensures Divided(dividend + [digit], divisor, quotient + [q], r)
  {
    assert (dividend + [digit])[..|dividend|] == dividend;
    assert (quotient + [q])[..|quotient|] == quotient;
    var v := DigitsValue(quotient);
    assert (v * B32 + q) * divisor == v * divisor * B32 + q * divisor;
  }

  method DivideStep(step: u64, divisor: u32, ghost remainder: nat, ghost digit: u32)
    returns (q: u32, r: u32)
    requires remainder < divisor && step == remainder * B32 + digit
    ensures r < divisor && step == q * divisor + r
  {
    QuotientDigitFits(step, divisor, remainder, digit);
    q := step / divisor;
    r := step % divisor;
  }

  lemma QuotientDigitFits(step: nat, divisor: nat, remainder: nat, digit: nat)
    requires 0 < divisor && remainder < divisor && digit < B32 && step == remainder * B32 + digit
    ensures step / divisor < B32
  {
    var q := step / divisor;
    assert q * divisor <= step;
    if q >= B32 {
      MulLe(B32, q, divisor);
    }
  }

  method DivideU32(value: Wide, divisor: u32) returns (result: Wide)
    ensures Value(result) == if divisor == 0 then 0 else Value(value) / divisor
  {
    if divisor == 0 {
      return ZERO;
    }
    var dividend: seq<u32> := [value.high / B32, value.high % B32, value.low / B32, value.low % B32];
    var quotient: seq<u32> := [];
    var remainder: u32 := 0;
    for index := 0 to 4
      invariant |quotient| == index
      invariant Divided(dividend[..index], divisor, quotient, remainder)
    {
      var digit, next := DivideStep(remainder * B32 + dividend[index], divisor, remainder, dividend[index]);
      DivideDigit(dividend[..index], divisor, quotient, remainder, dividend[index], digit, next);
      assert dividend[..index + 1] == dividend[..index] + [dividend[index]];
      quotient := quotient + [digit];
      remainder := next;
    }
    assert dividend[..4] == dividend;
    FourDigits(dividend);
    FourDigits(quotient);
    result := Wide(quotient[0] * B32 + quotient[1], quotient[2] * B32 + quotient[3]);
    DivUnique(Value(value), divisor, Value(result));
  }

  // ---- Digit-by-digit square root of 128 bits --------------------------

  ghost function Pow4(n: nat): nat { if n == 0 then 1 else 4 * Pow4(n - 1) }

  function Pow2(n: nat): nat { if n == 0 then 1 else 2 * Pow2(n - 1) }

  lemma {:induction false} Pow4Sum(a: nat, b: nat)
    ensures Pow4(a + b) == Pow4(a) * Pow4(b)
  {
    if a != 0 {
      Pow4Sum(a - 1, b);
    }
  }

  lemma {:induction false} Pow2Sum(a: nat, b: nat)
    ensures Pow2(a + b) == Pow2(a) * Pow2(b)
  {
    if a != 0 {
      Pow2Sum(a - 1, b);
    }
  }

  lemma Pow4At64()
    ensures Pow4(64) == B128
  {
    Pow4Sum(32, 32); Pow4Sum(16, 16); Pow4Sum(8, 8);
    assert Pow4(8) == 65536;
  }

  lemma Pow2At32()
    ensures Pow2(32) == B32 && Pow2(64) == B64
  {
    Pow2Sum(32, 32); Pow2Sum(16, 16); Pow2Sum(8, 8);
    assert Pow2(8) == 256;
  }

  // What the shifted operand still holds after `digit` pairs were consumed.
  ghost predicate Consumed(v: nat, prefix: nat, shifted: nat, digit: nat)
    requires digit <= 64
  {
    && shifted < B128
    && v * Pow4(digit) == prefix * B128 + shifted
  }

  // Shifting the operand left by two bits moves its top pair into the prefix.
  lemma ConsumePair(v: nat, prefix: nat, shifted: nat, digit: nat, pair: nat, rest: nat)
    requires digit < 64 && Consumed(v, prefix, shifted, digit)
    requires 4 * shifted == pair * B128 + rest && rest < B128
    ensures Consumed(v, 4 * prefix + pair, rest, digit + 1)
  {
    assert v * Pow4(digit + 1) == 4 * (v * Pow4(digit));
  }

  lemma QuarterSplit(x: u64)
    ensures 4 * x == x / 0x4000_0000_0000_0000 * B64 + x * 4 % B64
    ensures x / 0x4000_0000_0000_0000 < 4 && x * 4 % B64 <= B64 - 4
  {
  }

  function ShiftPair(w: Wide, incoming: nat): (shifted: Wide)
    requires incoming < 4
    ensures 4 * Value(w) + incoming == w.high / 0x4000_0000_0000_0000 * B128 + Value(shifted)
  {
    QuarterSplit(w.high);
    QuarterSplit(w.low);
    Wide(w.high * 4 % B64 + w.low / 0x4000_0000_0000_0000, w.low * 4 % B64 + incoming)
  }

  // Borrowing subtraction; exact whenever the left operand is not smaller.
  function Subtract(left: Wide, right: Wide): (difference: Wide)
    requires Value(right) <= Value(left)
    ensures Value(difference) == Value(left) - Value(right)
  {
    var borrow := if left.low < right.low then 1 else 0;
    Wide((left.high - (right.high + borrow)) % B64, (left.low - right.low) % B64)
  }

  // The trial subtrahend of one digit: twice the shifted root, plus one.
  function Trial(result: u64): (trial: Wide)
    ensures Value(trial) == 2 * result + 1
  {
    Wide(result / 0x8000_0000_0000_0000, result * 2 % B64 + 1)
  }

  // `root` is the floor root of `prefix`, leaving `rest`.
  ghost predicate FloorRoot(prefix: nat, root: nat, rest: nat) {
    && rest <= 2 * root
    && prefix == root * root + rest
  }

  lemma RootStep(prefix: nat, root: nat, rest: nat, pair: nat)
    requires FloorRoot(prefix, root, rest) && pair < 4
    ensures var next := 4 * rest + pair;
            if 4 * root + 1 <= next then FloorRoot(4 * prefix + pair, 2 * root + 1, next - (4 * root + 1))
            else FloorRoot(4 * prefix + pair, 2 * root, next)
  {
    assert (2 * root + 1) * (2 * root + 1) == 4 * (root * root) + 4 * root + 1;
    assert (2 * root) * (2 * root) == 4 * (root * root);
  }

  // After `digit` digits the root so far is the floor root of the consumed prefix.
  ghost predicate RootState(v: nat, prefix: nat, digit: nat, value: Wide, remainder: Wide, result: nat)
    requires digit <= 64
  {
    && Consumed(v, prefix, Value(value), digit)
    && result < Pow2(digit)
    && FloorRoot(prefix, result, Value(remainder))
  }

  // One digit of the recurrence, in the limbs.
  ghost predicate RootDigitStep(value: Wide, remainder: Wide, result: nat,
    nextValue: Wide, nextRemainder: Wide, nextResult: nat)
  {
    var pair := value.high / 0x4000_0000_0000_0000;
    var next := 4 * Value(remainder) + pair;
    && 4 * Value(value) == pair * B128 + Value(nextValue)
    && if 4 * result + 1 <= next
       then nextResult == 2 * result + 1 && Value(nextRemainder) == next - (4 * result + 1)
       else nextResult == 2 * result && Value(nextRemainder) == next
  }

  lemma RootStatePreserved(v: nat, prefix: nat, digit: nat, value: Wide, remainder: Wide, result: nat,
    nextValue: Wide, nextRemainder: Wide, nextResult: nat)
    requires digit < 64 && RootState(v, prefix, digit, value, remainder, result)
    requires RootDigitStep(value, remainder, result, nextValue, nextRemainder, nextResult)
    ensures RootState(v, 4 * prefix + value.high / 0x4000_0000_0000_0000, digit + 1,
                      nextValue, nextRemainder, nextResult)
  {
    var pair := value.high / 0x4000_0000_0000_0000;
    ConsumePair(v, prefix, Value(value), digit, pair, Value(nextValue));
    RootStep(prefix, result, Value(remainder), pair);
    assert Pow2(digit + 1) == 2 * Pow2(digit);
  }

  method RootDigit(value: Wide, remainder: Wide, result: u64)
    returns (nextValue: Wide, nextRemainder: Wide, nextResult: u64)
    requires result < 0x8000_0000_0000_0000 && Value(remainder) <= 2 * result
    ensures RootDigitStep(value, remainder, result, nextValue, nextRemainder, nextResult)
  {
    var inputPair := value.high / 0x4000_0000_0000_0000;
    nextValue := ShiftPair(value, 0);
    SmallRemainderLimb(remainder, result);
    nextRemainder := ShiftPair(remainder, inputPair);
    nextResult := result * 2;
    var trial := Trial(nextResult);
    if LessEqual(trial, nextRemainder) {
      nextRemainder := Subtract(nextRemainder, trial);
      nextResult := nextResult + 1;
    }
  }

  lemma RootInitial(v: Wide)
    ensures RootState(Value(v), 0, 0, v, ZERO, 0)
  {
  }

  lemma RootDigitReady(v: nat, prefix: nat, digit: nat, value: Wide, remainder: Wide, result: nat)
    requires digit < 64 && RootState(v, prefix, digit, value, remainder, result)
    ensures result < 0x8000_0000_0000_0000 && Value(remainder) <= 2 * result
  {
    Pow2Bound(digit);
  }

  lemma RootComplete(v: nat, prefix: nat, value: Wide, remainder: Wide, result: nat)
    requires RootState(v, prefix, 64, value, remainder, result)
    ensures result * result <= v < (result + 1) * (result + 1)
  {
    Pow4At64();
    WholeOperandConsumed(v, prefix, Value(value));
  }

  method IntegerSqrt(operand: Wide) returns (result: u64)
    ensures result * result <= Value(operand) < (result + 1) * (result + 1)
  {
    var value := operand;
    var remainder := ZERO;
    result := 0;
    ghost var prefix: nat := 0;
    RootInitial(operand);
    for digit := 0 to 64
      invariant RootState(Value(operand), prefix, digit, value, remainder, result)
    {
      RootDigitReady(Value(operand), prefix, digit, value, remainder, result);
      var nextValue, nextRemainder, nextResult := RootDigit(value, remainder, result);
      RootStatePreserved(Value(operand), prefix, digit, value, remainder, result,
                         nextValue, nextRemainder, nextResult);
      prefix := 4 * prefix + value.high / 0x4000_0000_0000_0000;
      value, remainder, result := nextValue, nextRemainder, nextResult;
    }
    RootComplete(Value(operand), prefix, value, remainder, result);
  }

  lemma Pow2Bound(n: nat)
    requires n < 64
    ensures Pow2(n) <= 0x8000_0000_0000_0000
  {
    hide Pow2;
    Pow2At32();
    Pow2Sum(n + 1, 63 - n);
    Pow2Next(n);
    Pow2Positive(63 - n);
    Pow2Positive(n);
    MulLe(1, Pow2(63 - n), 2 * Pow2(n));
  }

  lemma Pow2Next(n: nat)
    ensures Pow2(n + 1) == 2 * Pow2(n)
  {
  }

  lemma {:induction false} Pow2Positive(n: nat)
    ensures Pow2(n) >= 1
  {
    if n != 0 { Pow2Positive(n - 1); }
  }

  lemma SmallRemainderLimb(remainder: Wide, root: nat)
    requires Value(remainder) <= 2 * root && root < 0x8000_0000_0000_0000
    ensures remainder.high == 0
  {
  }

  lemma WholeOperandConsumed(v: nat, prefix: nat, rest: nat)
    requires v * B128 == prefix * B128 + rest && rest < B128
    ensures v == prefix
  {
  }

  // The floor root is unique, so the digit recurrence defines one function.
  lemma RootUnique(n: nat, a: nat, b: nat)
    requires a * a <= n < (a + 1) * (a + 1)
    requires b * b <= n < (b + 1) * (b + 1)
    ensures a == b
  {
    if a < b { SquareMonotone(a + 1, b); }
    if b < a { SquareMonotone(b + 1, a); }
  }

  lemma SquareMonotone(a: nat, b: nat)
    requires a <= b
    ensures a * a <= b * b
  {
    assert a * a <= a * b <= b * b;
  }
}
