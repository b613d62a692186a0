/** One phase of the flickermeter from voltage samples to instantaneous
    flicker: what the exact, unbounded recurrence computes, and when every
    intermediate value of it fits the machine. */
module FlickerFilter {
  import opened Words
  import opened WideArithmetic
  import opened FlickerArithmetic

  const STAGES: nat := 7
  const RECIPROCAL_TICKS: nat := 2000
  const ADAPTER_FLOOR: int := 0x1_0000
  const MEAN_LIMIT: int := 0x40_0000_0000
  const ONE: int := 0x4000_0000

  datatype Biquad = Biquad(b0: i64, b1: i64, b2: i64, a1: i64, a2: i64)
  datatype Memory = Memory(z1: int, z2: int)

  predicate Fits(x: int) { I64_MIN <= x <= I64_MAX }

  // ---- One biquad ---------------------------------------------------------------

  // The transposed direct form over unbounded integers.
  ghost function ExactBiquad(c: Biquad, m: Memory, input: int): (int, Memory) {
    var output := RoundAway(input * c.b0) + m.z1;
    (output, Memory(RoundAway(input * c.b1) - RoundAway(output * c.a1) + m.z2,
                    RoundAway(input * c.b2) - RoundAway(output * c.a2)))
  }

  ghost predicate BiquadFits(c: Biquad, m: Memory, input: int) {
    var (output, next) := ExactBiquad(c, m, input);
    && Fits(RoundAway(input * c.b0)) && Fits(output)
    && Fits(RoundAway(input * c.b1)) && Fits(RoundAway(output * c.a1)) && Fits(next.z1)
    && Fits(RoundAway(input * c.b2)) && Fits(RoundAway(output * c.a2)) && Fits(next.z2)
  }

  datatype Stepped = Stepped(output: i64, z1: i64, z2: i64, overflow: bool)

  // As the processor computes it, each operation saturating.
  function RunBiquad(c: Biquad, z1: i64, z2: i64, input: i64): Stepped {
    var p0 := MultiplyQ30(input, c.b0);
    var output := SaturatingExpression(p0.value, false, z1, false, 0, false);
    var p1 := MultiplyQ30(input, c.b1);
    var q1 := MultiplyQ30(output.value, c.a1);
    var next1 := SaturatingExpression(p1.value, false, q1.value, true, z2, false);
    var p2 := MultiplyQ30(input, c.b2);
    var q2 := MultiplyQ30(output.value, c.a2);
    var next2 := SaturatingExpression(p2.value, false, q2.value, true, 0, false);
    Stepped(output.value, next1.value, next2.value,
      p0.overflow || output.overflow || p1.overflow || q1.overflow || next1.overflow ||
      p2.overflow || q2.overflow || next2.overflow)
  }

  // The flag stays clear exactly when the exact step fits, and then the step
  // is exact.
  lemma RunBiquadIsExact(c: Biquad, z1: i64, z2: i64, input: i64)
    ensures var r := RunBiquad(c, z1, z2, input);
            && (!r.overflow <==> BiquadFits(c, Memory(z1, z2), input))
            && (!r.overflow ==> (r.output as int, Memory(r.z1, r.z2)) == ExactBiquad(c, Memory(z1, z2), input))
  {
    hide MultiplyQ30, SaturatingExpression, RoundAway;
  }

  // ---- A chain of biquads ---------------------------------------------------------

  ghost function ExactChain(cs: seq<Biquad>, ms: seq<Memory>, input: int): (r: (int, seq<Memory>))
    requires |cs| == |ms|
    ensures |r.1| == |cs|
  {
    if cs == [] then (input, [])
    else
      var n := |cs| - 1;
      var (y, before) := ExactChain(cs[..n], ms[..n], input);
      var (output, m) := ExactBiquad(cs[n], ms[n], y);
      (output, before + [m])
  }

  ghost predicate ChainFits(cs: seq<Biquad>, ms: seq<Memory>, input: int)
    requires |cs| == |ms|
  {
    if cs == [] then true
    else
      var n := |cs| - 1;
      ChainFits(cs[..n], ms[..n], input) && BiquadFits(cs[n], ms[n], ExactChain(cs[..n], ms[..n], input).0)
  }

  lemma ChainStep(cs: seq<Biquad>, ms: seq<Memory>, k: nat, input: int)
    requires k < |cs| == |ms|
    ensures var before := ExactChain(cs[..k], ms[..k], input);
            var (output, m) := ExactBiquad(cs[k], ms[k], before.0);
            && ExactChain(cs[..k + 1], ms[..k + 1], input) == (output, before.1 + [m])
            && (ChainFits(cs[..k + 1], ms[..k + 1], input) <==>
                ChainFits(cs[..k], ms[..k], input) && BiquadFits(cs[k], ms[k], before.0))
  {
    assert cs[..k + 1][..k] == cs[..k] && ms[..k + 1][..k] == ms[..k];
    hide ExactBiquad, BiquadFits;
  }

  // ---- One decimated tick --------------------------------------------------------------

  datatype Profile = Profile(coefficients: seq<Biquad>, calibration: u64, reciprocal: u64, divisor: nat)

  predicate ValidProfile(p: Profile) {
    |p.coefficients| == STAGES && 0 < p.divisor <= 64
  }

  // The tracked mean square moves by the truncated difference over 54600.
  function ExactAdapter(adapter: int, meanSquare: int): int {
    adapter + TruncDiv(meanSquare - adapter, 54600)
  }

  lemma AdapterBetween(adapter: int, meanSquare: int)
    ensures Min(adapter, meanSquare) <= ExactAdapter(adapter, meanSquare) <= Max(adapter, meanSquare)
  {
  }

  datatype State = State(rawSum: int, rawCount: nat, rawValid: bool, ticks: nat, adapter: int, reciprocal: int,
    memory: seq<Memory>)

  ghost predicate Ranged(p: Profile, s: State) {
    && |s.memory| == STAGES
    && s.rawCount < p.divisor && 0 <= s.rawSum <= s.rawCount * MEAN_LIMIT
    && ADAPTER_FLOOR <= s.adapter <= MEAN_LIMIT
    && 0 <= s.reciprocal <= 0x4000_0000_0000
    && s.ticks < RECIPROCAL_TICKS
  }

  const REST := Memory(0, 0)
  const INITIAL := State(0, 0, false, 0, 0x1_0000_0000, 0x4000_0000, [REST, REST, REST, REST, REST, REST, REST])

  // The relative level, filtered through six stages, squared and smoothed.
  ghost function ExactFlicker(p: Profile, memory: seq<Memory>, ratio: int): (int, seq<Memory>)
    requires ValidProfile(p) && |memory| == STAGES
  {
    var (filtered, before) := ExactChain(p.coefficients[..6], memory[..6], ratio - ONE);
    var (smoothed, last) := ExactBiquad(p.coefficients[6], memory[6], RoundAway(filtered * filtered));
    (Max(smoothed, 0) * p.calibration / ONE, before + [last])
  }

  ghost predicate FlickerFits(p: Profile, memory: seq<Memory>, ratio: int)
    requires ValidProfile(p) && |memory| == STAGES
  {
    var filtered := ExactChain(p.coefficients[..6], memory[..6], ratio - ONE).0;
    && ChainFits(p.coefficients[..6], memory[..6], ratio - ONE)
    && RoundAway(filtered * filtered) <= I64_MAX
    && BiquadFits(p.coefficients[6], memory[6], RoundAway(filtered * filtered))
    && ExactFlicker(p, memory, ratio).0 < B32
  }

  function Refreshed(ticks: nat, adapter: int, reciprocal: int): int
    requires adapter > 0
  {
    if ticks + 1 >= RECIPROCAL_TICKS then 0x4000_0000_0000_0000 / adapter else reciprocal
  }

  function NextTicks(ticks: nat): nat { if ticks + 1 >= RECIPROCAL_TICKS then 0 else ticks + 1 }

  // ---- One sample -------------------------------------------------------------------------

  datatype Sample = Sample(voltage: i32, valid: bool, saturated: bool)

  ghost function ExactLevel(p: Profile, voltage: i32): int { voltage * p.reciprocal / DIVISOR }

  // Gathering one raw sample toward a decimated mean square.
  ghost function Gathered(p: Profile, s: State, x: Sample): State {
    var level := ExactLevel(p, x.voltage);
    s.(rawSum := s.rawSum + if x.valid then level * level else 0,
       rawCount := s.rawCount + 1,
       rawValid := (s.rawCount == 0 || s.rawValid) && x.valid)
  }

  ghost predicate GatherFits(p: Profile, x: Sample) {
    !x.saturated && (x.valid ==> Abs(ExactLevel(p, x.voltage)) <= NORMAL_LIMIT)
  }

  // A complete group of samples makes one tick.
  ghost function Ticked(p: Profile, s: State): (State, int)
    requires ValidProfile(p) && |s.memory| == STAGES
  {
    var ready := s.(rawSum := 0, rawCount := 0, rawValid := false, ticks := NextTicks(s.ticks));
    if !s.rawValid then (ready, 0)
    else
      var mean := s.rawSum / p.divisor;
      var adapter := ExactAdapter(s.adapter, mean);
      if adapter <= 0 then (ready, 0)
      else
        var reciprocal := Refreshed(s.ticks, adapter, s.reciprocal);
        var (flicker, memory) := ExactFlicker(p, s.memory, mean * reciprocal / B32);
        (ready.(adapter := adapter, reciprocal := reciprocal, memory := memory), flicker)
  }

  ghost predicate TickFits(p: Profile, s: State)
    requires ValidProfile(p) && |s.memory| == STAGES
  {
    s.rawValid ==>
      var mean := s.rawSum / p.divisor;
      var adapter := ExactAdapter(s.adapter, mean);
      && adapter >= ADAPTER_FLOOR
      && FlickerFits(p, s.memory, mean * Refreshed(s.ticks, adapter, s.reciprocal) / B32)
  }

  // ---- Whole runs ----------------------------------------------------------------------------

  datatype Run = Run(state: State, outputs: seq<int>, fits: bool)

  ghost function Taken(p: Profile, r: Run, x: Sample): (next: Run)
    requires ValidProfile(p) && |r.state.memory| == STAGES
    ensures |next.state.memory| == STAGES
  {
    var gathered := Gathered(p, r.state, x);
    if gathered.rawCount < p.divisor then Run(gathered, r.outputs, r.fits && GatherFits(p, x))
    else
      var (ticked, flicker) := Ticked(p, gathered);
      Run(ticked, r.outputs + [flicker], r.fits && GatherFits(p, x) && TickFits(p, gathered))
  }

  // The exact recurrence over every sample since the last reset.
  ghost function ExactRun(p: Profile, samples: seq<Sample>): (r: Run)
    requires ValidProfile(p)
    ensures |r.state.memory| == STAGES
  {
    if samples == [] then Run(INITIAL, [], true)
    else Taken(p, ExactRun(p, samples[..|samples| - 1]), samples[|samples| - 1])
  }

  lemma RunAppend(p: Profile, samples: seq<Sample>, x: Sample)
    requires ValidProfile(p)
    ensures ExactRun(p, samples + [x]) == Taken(p, ExactRun(p, samples), x)
  {
    hide Taken;
    assert (samples + [x])[..|samples|] == samples;
  }

  // A run that fits has fitted all along, and its outputs only grow.
  lemma {:induction false} FittingRunsGrow(p: Profile, samples: seq<Sample>, more: seq<Sample>)
    requires ValidProfile(p) && ExactRun(p, samples + more).fits
    ensures ExactRun(p, samples).fits
    ensures ExactRun(p, samples).outputs <= ExactRun(p, samples + more).outputs
  {
    if more == [] {
      assert samples + more == samples;
    } else {
      var n := |more| - 1;
      assert samples + more == (samples + more[..n]) + [more[n]];
      RunAppend(p, samples + more[..n], more[n]);
      TakenGrows(p, ExactRun(p, samples + more[..n]), more[n]);
      FittingRunsGrow(p, samples, more[..n]);
    }
  }

  lemma TakenGrows(p: Profile, r: Run, x: Sample)
    requires ValidProfile(p) && |r.state.memory| == STAGES
    ensures Taken(p, r, x).fits ==> r.fits
    ensures r.outputs <= Taken(p, r, x).outputs
  {
    hide Gathered, Ticked, TickFits, GatherFits;
  }

  // With the reciprocal of the reference voltage, a level is the sample in
  // units of the reference, with sixteen fraction bits, to within three units.
  lemma LevelIsRelative(p: Profile, reference: nat, voltage: i32)
    requires 0 < reference && p.reciprocal == 0x4000_0000_0000 / reference
    ensures (ExactLevel(p, voltage) - 2) * reference <= voltage * B16 < (ExactLevel(p, voltage) + 3) * reference
  {
    var r := p.reciprocal;
    var level := ExactLevel(p, voltage);
    assert 0x4000_0000_0000 == r * reference + 0x4000_0000_0000 % reference;
    assert voltage * r == level * DIVISOR + voltage * r % DIVISOR;
    var rest, residue := 0x4000_0000_0000 % reference, voltage * r % DIVISOR;
    ScaledLevel(voltage, r, reference, rest, level, residue);
  }

  lemma ScaledLevel(voltage: i32, r: int, reference: nat, rest: nat, level: int, residue: nat)
    requires 0x4000_0000_0000 == r * reference + rest && rest < reference
    requires voltage * r == level * DIVISOR + residue && residue < DIVISOR
    ensures (level - 2) * reference <= voltage * B16 < (level + 3) * reference
  {
    var scaled, carried, missed := level * reference, residue * reference, voltage * rest;
    CrossMultiply(voltage, r, reference, rest, level, residue);
    MulLeBoth(Abs(voltage), 0x8000_0000, rest, reference);
    SignOfProduct(voltage, rest);
    MulLeBoth(0, residue, 0, reference);
    MulLe(residue, DIVISOR - 1, reference);
    Separate(level, reference);
    LinearBounds(voltage, reference, scaled, carried, missed);
  }

  lemma CrossMultiply(voltage: int, r: int, reference: int, rest: int, level: int, residue: int)
    requires 0x4000_0000_0000 == r * reference + rest
    requires voltage * r == level * DIVISOR + residue
    ensures voltage * 0x4000_0000_0000 == level * reference * DIVISOR + residue * reference + voltage * rest
  {
    assert voltage * (r * reference + rest) == (voltage * r) * reference + voltage * rest;
    assert (level * DIVISOR + residue) * reference == level * reference * DIVISOR + residue * reference;
  }

  lemma LinearBounds(voltage: int, reference: int, scaled: int, carried: int, missed: int)
    requires voltage * 0x4000_0000_0000 == scaled * DIVISOR + carried + missed
    requires 0 <= carried <= (DIVISOR - 1) * reference && Abs(missed) <= 0x8000_0000 * reference && reference > 0
    ensures scaled - 2 * reference <= voltage * B16 < scaled + 3 * reference
  {
  }

  lemma Separate(level: int, reference: int)
    ensures (level - 2) * reference == level * reference - 2 * reference
    ensures (level + 3) * reference == level * reference + 3 * reference
  {
  }
}
