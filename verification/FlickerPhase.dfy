/** One flickermeter phase updated in place, sample by sample. */
module FlickerPhase {
  import opened Words
  import opened WideArithmetic
  import opened FlickerArithmetic
  import opened FlickerFilter

  // ---- Ranges that hold whatever the overflow flag says ---------------------------

  lemma SquareFits(level: int, sum: int, count: nat, divisor: nat)
    requires -NORMAL_LIMIT <= level <= NORMAL_LIMIT
    requires 0 <= sum <= count * MEAN_LIMIT && count < divisor <= 64
    ensures 0 <= level * level <= MEAN_LIMIT && level * level == Abs(level) * Abs(level)
    ensures sum + level * level <= (count + 1) * MEAN_LIMIT <= U64_MAX
  {
    MulLeBoth(Abs(level), NORMAL_LIMIT, Abs(level), NORMAL_LIMIT);
    MulLe(count + 1, 64, MEAN_LIMIT);
  }

  lemma LevelIsExact(p: Profile, voltage: i32)
    ensures var level := Normalize(voltage, p.reciprocal);
            && -NORMAL_LIMIT <= level.value <= NORMAL_LIMIT
            && (level.overflow <==> Abs(ExactLevel(p, voltage)) > NORMAL_LIMIT)
            && (!level.overflow ==> level.value == ExactLevel(p, voltage))
  {
    hide Normalize;
    NormalizeIsFloor(voltage, p.reciprocal);
  }

  // The accumulator adds and would saturate; within a group it never does.
  function AddSaturating(sum: u64, square: u64): (u64, bool) {
    if sum > U64_MAX - square then (U64_MAX, true) else (sum + square, false)
  }

  lemma MeanFits(sum: int, divisor: nat)
    requires 0 < divisor && 0 <= sum <= divisor * MEAN_LIMIT
    ensures 0 <= sum / divisor <= MEAN_LIMIT
  {
    QuotientAtLeast(sum, divisor, 0);
    BelowNext(divisor, MEAN_LIMIT);
    QuotientAtMost(sum, divisor, MEAN_LIMIT);
  }

  lemma BelowNext(divisor: nat, limit: int)
    requires divisor > 0
    ensures divisor * limit < (limit + 1) * divisor
  {
  }

  // The ratio of mean to tracked level never saturates its 64-bit result.
  lemma RatioFits(mean: int, reciprocal: int)
    requires 0 <= mean <= MEAN_LIMIT && 0 <= reciprocal <= 0x4000_0000_0000
    ensures 0 <= mean * reciprocal / B32 <= 0x10_0000_0000_0000
  {
    MulLeBoth(mean, MEAN_LIMIT, reciprocal, 0x4000_0000_0000);
    QuotientAtLeast(mean * reciprocal, B32, 0);
    QuotientAtMost(mean * reciprocal, B32, 0x10_0000_0000_0000);
  }

  lemma ReciprocalFits(adapter: int)
    requires ADAPTER_FLOOR <= adapter
    ensures 0 <= 0x4000_0000_0000_0000 / adapter <= 0x4000_0000_0000
  {
    QuotientAtLeast(0x4000_0000_0000_0000, adapter, 0);
    MulLe(ADAPTER_FLOOR, adapter, 0x4000_0000_0001);
    QuotientAtMost(0x4000_0000_0000_0000, adapter, 0x4000_0000_0000);
  }

  lemma SquareRounded(x: i64)
    ensures RoundAway(x * x) == (Abs(x) * Abs(x) + HALF) / DIVISOR && 0 <= RoundAway(x * x)
  {
    assert x * x == Abs(x) * Abs(x);
    MulLeBoth(0, Abs(x), 0, Abs(x));
  }

  ghost function Paired(z1: seq<i64>, z2: seq<i64>): (ms: seq<Memory>)
    requires |z1| == |z2|
    ensures |ms| == |z1| && forall k :: 0 <= k < |ms| ==> ms[k] == Memory(z1[k], z2[k])
  {
    seq(|z1|, k requires 0 <= k < |z1| => Memory(z1[k], z2[k]))
  }

  class Phase {
    const profile: Profile
    const z1: array<i64>
    const z2: array<i64>
    var rawSum: u64
    var rawCount: nat
    var rawValid: bool
    var ticks: nat
    var adapter: u64
    var reciprocal: u64
    var overflow: bool
    // Every sample since the last reset and every value made from them.
    ghost var samples: seq<Sample>
    ghost var outputs: seq<int>

    ghost predicate Footprint() {
      ValidProfile(profile) && z1.Length == z2.Length == STAGES && z1 != z2
    }

    ghost function Memories(): (ms: seq<Memory>)
      requires Footprint()
      reads z1, z2
      ensures |ms| == STAGES
    {
      Paired(z1[..], z2[..])
    }

    ghost function View(): State
      requires Footprint()
      reads this, z1, z2
    {
      State(rawSum, rawCount, rawValid, ticks, adapter, reciprocal, Memories())
    }

    // The overflow flag is clear exactly while the exact recurrence fits the
    // machine, and until then the state and every output are the exact ones.
    ghost predicate Valid()
      reads this, z1, z2
    {
      && Footprint() && Ranged(profile, View())
      && (!overflow <==> ExactRun(profile, samples).fits)
      && (!overflow ==> View() == ExactRun(profile, samples).state && outputs == ExactRun(profile, samples).outputs)
    }

    constructor (profile: Profile)
      requires ValidProfile(profile)
      ensures Valid() && samples == [] && this.profile == profile && fresh(z1) && fresh(z2)
    {
      this.profile := profile;
      z1, z2 := new i64[STAGES](_ => 0), new i64[STAGES](_ => 0);
      rawSum, rawCount, rawValid, ticks := 0, 0, false, 0;
      adapter, reciprocal, overflow := 0x1_0000_0000, 0x4000_0000, false;
      samples, outputs := [], [];
      new;
      assert Memories() == INITIAL.memory;
    }

    // Back to rest; the run starts again.
    method Reset()
      requires Footprint()
      modifies this, z1, z2
      ensures Valid() && samples == [] && outputs == [] && !overflow
    {
      forall k | 0 <= k < STAGES { z1[k] := 0; }
      forall k | 0 <= k < STAGES { z2[k] := 0; }
      rawSum, rawCount, rawValid, ticks := 0, 0, false, 0;
      adapter, reciprocal, overflow := 0x1_0000_0000, 0x4000_0000, false;
      samples, outputs := [], [];
      assert Memories() == INITIAL.memory;
    }

    method Gather(x: Sample)
      requires Footprint() && Ranged(profile, View())
      modifies this`rawSum, this`rawCount, this`rawValid, this`overflow
      ensures rawCount == old(rawCount) + 1 && 0 <= rawSum <= rawCount * MEAN_LIMIT
      ensures overflow <==> old(overflow) || !GatherFits(profile, x)
      ensures !overflow ==> View() == old(Gathered(profile, View(), x))
    {
      hide Memories, Normalize, ExactLevel;
      LevelIsExact(profile, x.voltage);
      if x.saturated {
        overflow := true;
      }
      if rawCount == 0 {
        rawValid := true;
      }
      if x.valid {
        var level := Normalize(x.voltage, profile.reciprocal);
        SquareFits(level.value, rawSum, rawCount, profile.divisor);
        var (next, saturated) := AddSaturating(rawSum, Abs(level.value) * Abs(level.value));
        rawSum, overflow := next, overflow || level.overflow || saturated;
      } else {
        rawValid := false;
      }
      rawCount := rawCount + 1;
    }

    // The level tracker, floored, and its reciprocal once a second.
    method Track(mean: u64)
      requires ADAPTER_FLOOR <= adapter <= MEAN_LIMIT && mean <= MEAN_LIMIT && reciprocal <= 0x4000_0000_0000
      modifies this`adapter, this`reciprocal, this`overflow
      ensures adapter == Max(ExactAdapter(old(adapter), mean), ADAPTER_FLOOR) <= MEAN_LIMIT
      ensures overflow <==> old(overflow) || ExactAdapter(old(adapter), mean) < ADAPTER_FLOOR
      ensures reciprocal == Refreshed(ticks, adapter, old(reciprocal)) <= 0x4000_0000_0000
    {
      AdapterBetween(adapter, mean);
      var difference: i64 := if mean >= adapter then mean - adapter else -(adapter - mean);
      var step: i64 := TruncDiv(difference, 54600);
      var next: u64 := if step < 0 then adapter - Abs(step) else adapter + step;
      if next < ADAPTER_FLOOR {
        next, overflow := ADAPTER_FLOOR, true;
      }
      adapter := next;
      ReciprocalFits(adapter);
      if ticks + 1 >= RECIPROCAL_TICKS {
        reciprocal := 0x4000_0000_0000_0000 / adapter;
      }
    }

    method Stage(input: i64, stage: nat) returns (output: i64)
      requires Footprint() && stage < STAGES
      modifies z1, z2, this`overflow
      ensures forall k :: 0 <= k < STAGES && k != stage ==> z1[k] == old(z1[k]) && z2[k] == old(z2[k])
      ensures var m := Memory(old(z1[stage]), old(z2[stage]));
              && (overflow <==> old(overflow) || !BiquadFits(profile.coefficients[stage], m, input))
              && (!overflow ==>
                  (output as int, Memory(z1[stage], z2[stage])) == ExactBiquad(profile.coefficients[stage], m, input))
    {
      hide BiquadFits, ExactBiquad, RunBiquad;
      RunBiquadIsExact(profile.coefficients[stage], z1[stage], z2[stage], input);
      var r := RunBiquad(profile.coefficients[stage], z1[stage], z2[stage], input);
      z1[stage] := r.z1;
      z2[stage] := r.z2;
      overflow := overflow || r.overflow;
      output := r.output;
    }

    method Chain(input: i64) returns (filtered: i64)
      requires Footprint()
      modifies z1, z2, this`overflow
      ensures z1[6] == old(z1[6]) && z2[6] == old(z2[6])
      ensures overflow <==> old(overflow) || !old(ChainFits(profile.coefficients[..6], Memories()[..6], input))
      ensures !overflow ==>
        (filtered as int, Memories()[..6]) == old(ExactChain(profile.coefficients[..6], Memories()[..6], input))
    {
      hide BiquadFits, ExactBiquad, ChainFits, ExactChain;
      ghost var before := Memories();
      ghost var cs := profile.coefficients;
      filtered := input;
      EmptyChain(input);
      assert cs[..0] == [] && before[..0] == [];
      for stage := 0 to 6
        invariant forall k :: stage <= k < STAGES ==> z1[k] == old(z1[k]) && z2[k] == old(z2[k])
        invariant overflow <==> old(overflow) || !ChainFits(cs[..stage], before[..stage], input)
        invariant !overflow ==> filtered == ExactChain(cs[..stage], before[..stage], input).0
        invariant !overflow ==> forall k :: 0 <= k < stage ==>
          Memory(z1[k], z2[k]) == ExactChain(cs[..stage], before[..stage], input).1[k]
      {
        ChainStep(cs, before, stage, input);
        filtered := Stage(filtered, stage);
      }
      assert !overflow ==> Memories()[..6] == ExactChain(cs[..6], before[..6], input).1;
    }

    // The flicker path of one tick, from the relative level to its reading.
    method Weigh(ratio: u64) returns (flicker: u32)
      requires Footprint() && ratio <= 0x10_0000_0000_0000
      modifies z1, z2, this`overflow
      ensures overflow <==> old(overflow) || !old(FlickerFits(profile, Memories(), ratio))
      ensures !overflow ==> (flicker as int, Memories()) == old(ExactFlicker(profile, Memories(), ratio))
    {
      hide BiquadFits, ExactBiquad, ChainFits, ExactChain, RoundAway, MultiplyShift, SaturatingExpression;
      ghost var before := Memories();
      var offset := SaturatingExpression(ratio, false, ONE, true, 0, false);
      overflow := overflow || offset.overflow;
      var filtered := Chain(offset.value);
      SquareRounded(filtered);
      Pow2At30();
      var squared := MultiplyShift(Abs(filtered), Abs(filtered), 30, I64_MAX, HALF);
      overflow := overflow || squared.overflow;
      var smoothed := Stage(squared.value, 6);
      var held := MultiplyShift(Max(smoothed, 0), profile.calibration, 30, B32 - 1, 0);
      overflow := overflow || held.overflow;
      flicker := held.value;
      assert !overflow ==> Memories() == old(ExactFlicker(profile, Memories(), ratio)).1;
    }

    // One decimated tick over a complete group of samples.
    method Tick() returns (flicker: u32)
      requires Footprint() && ADAPTER_FLOOR <= adapter <= MEAN_LIMIT && reciprocal <= 0x4000_0000_0000
      requires ticks < RECIPROCAL_TICKS && 0 <= rawSum <= rawCount * MEAN_LIMIT && rawCount == profile.divisor
      modifies this`rawSum, this`rawCount, this`rawValid, this`ticks, this`adapter, this`reciprocal, this`overflow, z1, z2
      ensures Ranged(profile, View())
      ensures overflow <==> old(overflow) || !old(TickFits(profile, View()))
      ensures !overflow ==> (View(), flicker as int) == old(Ticked(profile, View()))
    {
      hide Memories, FlickerFits, ExactFlicker, ExactAdapter, MultiplyShift;
      flicker := 0;
      MeanFits(rawSum, profile.divisor);
      AdapterBetween(adapter, rawSum / profile.divisor);
      if rawValid {
        var mean: u64 := rawSum / profile.divisor;
        Track(mean);
        RatioFits(mean, reciprocal);
        Pow2At32();
        var ratio := MultiplyShift(mean, reciprocal, 32, I64_MAX, 0);
        overflow := overflow || ratio.overflow;
        flicker := Weigh(ratio.value);
      }
      rawSum, rawCount, rawValid, ticks := 0, 0, false, NextTicks(ticks);
    }

    method Take(x: Sample) returns (reading: Option<u32>)
      requires Footprint() && Ranged(profile, View())
      modifies this`rawSum, this`rawCount, this`rawValid, this`ticks, this`adapter, this`reciprocal, this`overflow, z1, z2
      ensures Ranged(profile, View())
      ensures reading.Some? <==> old(rawCount) + 1 == profile.divisor
      ensures overflow <==> !old(Taken(profile, Run(View(), [], !overflow), x).fits)
      ensures !overflow ==>
        Run(View(), if reading.Some? then [reading.value] else [], true)
          == old(Taken(profile, Run(View(), [], !overflow), x))
    {
      hide GatherFits, Gathered, TickFits, Ticked, Memories;
      reading := None;
      Gather(x);
      GatheredCount(profile, old(View()), x);
      if rawCount >= profile.divisor {
        var flicker := Tick();
        reading := Some(flicker);
      }
    }

    // One sample of the run: the flag is clear exactly while the exact run
    // fits, and until it is set every reading is the exact one.
    method ProcessSample(x: Sample) returns (reading: Option<u32>)
      requires Valid()
      modifies this, z1, z2
      ensures Valid() && samples == old(samples) + [x]
      ensures reading.Some? <==> old(rawCount) + 1 == profile.divisor
      ensures outputs == old(outputs) + if reading.Some? then [reading.value as int] else []
    {
      hide Taken, ExactRun, Ranged, Memories;
      ghost var before := Run(View(), [], !overflow);
      reading := Take(x);
      TakenSplits(profile, ExactRun(profile, samples), before, x);
      RunAppend(profile, samples, x);
      samples := samples + [x];
      outputs := outputs + if reading.Some? then [reading.value as int] else [];
    }
  }

  lemma GatheredCount(p: Profile, s: State, x: Sample)
    ensures Gathered(p, s, x).rawCount == s.rawCount + 1
  {
  }

  // A step depends on the outputs so far only by extending them, and once
  // the run has left the machine it never fits again.
  lemma TakenSplits(p: Profile, r: Run, view: Run, x: Sample)
    requires ValidProfile(p) && |r.state.memory| == STAGES == |view.state.memory|
    requires view.fits == r.fits && view.outputs == [] && (r.fits ==> view.state == r.state)
    ensures Taken(p, r, x).fits == Taken(p, view, x).fits && (Taken(p, r, x).fits ==> r.fits)
    ensures Taken(p, r, x).fits ==>
      Taken(p, r, x) == Run(Taken(p, view, x).state, r.outputs + Taken(p, view, x).outputs, true)
  {
    hide Gathered, Ticked, TickFits, GatherFits;
  }

  lemma EmptyChain(input: int)
    ensures ExactChain([], [], input) == (input, []) && ChainFits([], [], input)
  {
  }
}
