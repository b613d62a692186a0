/** The 64-bit digit-by-digit square root, as the flickermeter computes it. */
module IntegerRoot {
  import opened Words
  import opened WideArithmetic

  ghost predicate IsRoot(n: nat, root: nat) {
    root * root <= n < (root + 1) * (root + 1)
  }

  // With digit weight w still to try: the root so far is a multiple found, the
  // rest of the operand is left, and one more double weight would be too much.
  ghost predicate Trying(n: nat, root: nat, w: nat, bit: nat, value: nat, result: nat) {
    && w >= 1 && bit == w * w && result == 2 * (root * w) && value == n - root * root
    && n < (root + 2 * w) * (root + 2 * w) && root + 2 * w <= B32
  }

  lemma Trial(n: nat, root: nat, w: nat, bit: nat, value: nat, result: nat)
    requires Trying(n, root, w, bit, value, result)
    ensures (root + w) * (root + w) == root * root + result + bit && result + bit < B64
  {
    assert (root + w) * (root + w) == root * root + 2 * (root * w) + w * w;
    MulLeBoth(root + w, B32 - 1, root + w, B32 - 1);
    MulLeBoth(0, root, 0, root);
  }

  // The root after one digit.
  function Tried(root: nat, w: nat, value: nat, trial: nat): nat {
    if value >= trial then root + w else root
  }

  lemma NextDigit(n: nat, root: nat, w: nat, bit: nat, value: nat, result: nat)
    requires Trying(n, root, 2 * w, bit, value, result) && w >= 1
    ensures var next := Tried(root, 2 * w, value, result + bit);
            Trying(n, next, w, bit / 4, if value >= result + bit then value - (result + bit) else value,
              result / 2 + if value >= result + bit then bit else 0)
  {
    Trial(n, root, 2 * w, bit, value, result);
    assert (2 * w) * (2 * w) == 4 * (w * w);
    assert root * (2 * w) == 2 * (root * w);
    assert (root + 2 * w) * w == root * w + 2 * (w * w);
  }

  lemma LastDigit(n: nat, root: nat, bit: nat, value: nat, result: nat)
    requires Trying(n, root, 1, bit, value, result)
    ensures bit == 1
    ensures IsRoot(n, result / 2 + if value >= result + bit then bit else 0)
  {
    Trial(n, root, 1, bit, value, result);
  }

  lemma Enough(n: u64)
    ensures Trying(n, 0, 0x8000_0000, 0x4000_0000_0000_0000, n, 0)
  {
  }

  // The digits from weight 2^digit down are still to try.
  ghost predicate Progress(n: nat, root: nat, digit: int, bit: nat, value: nat, result: nat) {
    if digit < 0 then bit == 0 && IsRoot(n, result)
    else bit != 0 && digit <= 31 && Trying(n, root, Pow2(digit), bit, value, result)
  }

  lemma ProgressStep(n: nat, root: nat, digit: nat, bit: nat, value: nat, result: nat)
    requires Progress(n, root, digit, bit, value, result)
    ensures result + bit < B64
    ensures var taken := value >= result + bit;
            Progress(n, Tried(root, Pow2(digit), value, result + bit), digit - 1, bit / 4,
              if taken then value - (result + bit) else value, result / 2 + if taken then bit else 0)
  {
    Trial(n, root, Pow2(digit), bit, value, result);
    if digit > 0 {
      var w := Pow2(digit - 1);
      Pow2Positive(digit - 1);
      assert Pow2(digit) == 2 * w;
      NextDigit(n, root, w, bit, value, result);
      QuarterBit(bit, w);
      hide Pow2;
    } else {
      LastDigit(n, root, bit, value, result);
    }
  }

  lemma QuarterBit(bit: nat, w: nat)
    requires bit == (2 * w) * (2 * w) && w >= 1
    ensures bit / 4 == w * w && bit / 4 != 0
  {
    assert (2 * w) * (2 * w) == 4 * (w * w);
    MulLeBoth(1, w, 1, w);
  }

  // A digit weight the operand does not reach is skipped.
  lemma ProgressSkip(n: nat, digit: nat, bit: nat)
    requires Progress(n, 0, digit, bit, n, 0) && bit > n
    ensures Progress(n, 0, digit - 1, bit / 4, n, 0)
  {
    if digit > 0 {
      var w := Pow2(digit - 1);
      Pow2Positive(digit - 1);
      assert Pow2(digit) == 2 * w;
      QuarterBit(bit, w);
    }
  }

  method IntegerSqrt(operand: u64) returns (root: u32)
    ensures IsRoot(operand, root)
  {
    hide Progress, IsRoot, Pow2;
    var result: u64, bit: u64, value: u64 := 0, 0x4000_0000_0000_0000, operand;
    ghost var digit: int, r: nat := 31, 0;
    ProgressStarts(operand);
    while bit > value
      invariant Progress(operand, 0, digit, bit, operand, 0)
      decreases bit
    {
      ProgressLive(operand, 0, digit, bit, operand, 0);
      ProgressSkip(operand, digit, bit);
      bit, digit := bit / 4, digit - 1;
    }
    while bit != 0
      invariant Progress(operand, r, digit, bit, value, result)
      decreases bit
    {
      ProgressLive(operand, r, digit, bit, value, result);
      ProgressStep(operand, r, digit, bit, value, result);
      r, digit := Tried(r, Pow2(digit), value, result + bit), digit - 1;
      if value >= result + bit {
        value, result := value - (result + bit), result / 2 + bit;
      } else {
        result := result / 2;
      }
      bit := bit / 4;
    }
    ProgressLive(operand, r, digit, bit, value, result);
    RootFits(operand, result);
    root := result;
  }

  lemma ProgressStarts(n: u64)
    ensures Progress(n, 0, 31, 0x4000_0000_0000_0000, n, 0)
  {
    Pow2At31();
    Enough(n);
  }

  lemma ProgressLive(n: nat, root: nat, digit: int, bit: nat, value: nat, result: nat)
    requires Progress(n, root, digit, bit, value, result)
    ensures bit != 0 <==> digit >= 0
    ensures bit == 0 ==> IsRoot(n, result)
  {
  }

  lemma Pow2At31()
    ensures Pow2(31) == 0x8000_0000
  {
    Pow2At32();
    assert Pow2(32) == 2 * Pow2(31);
  }

  lemma RootFits(n: u64, root: nat)
    requires IsRoot(n, root)
    ensures root < B32
  {
    if root >= B32 { MulLeBoth(B32, root, B32, root); }
  }

  // Where both apply, this root and the 128-bit one of the harmonic tiers are
  // the same number.
  lemma RootsAgree(operand: Wide, narrow: u32, wide: u64)
    requires Value(operand) < B64 && IsRoot(Value(operand), narrow)
    requires wide * wide <= Value(operand) < (wide + 1) * (wide + 1)
    ensures wide == narrow
  {
    RootUnique(Value(operand), narrow, wide);
  }
}
