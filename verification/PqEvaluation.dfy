/** When a power-quality condition starts and when it has recovered. */
module PqEvaluation {
  import opened Words

  const TYPES: nat := 9
  const PHASES: nat := 3
  const RAPID_CHANGE: nat := 3

  datatype Profile = Profile(enabled: bool, perPhase: bool, threshold: u32, hysteresis: u32, phases: seq<bool>)

  // Thresholds of 16 bits, the hysteresis below the threshold, some phase.
  predicate ValidProfile(p: Profile) {
    p.threshold <= 0xFFFF && p.hysteresis < p.threshold && |p.phases| == PHASES &&
    (p.phases[0] || p.phases[1] || p.phases[2])
  }

  datatype Configuration = Configuration(
    generation: u32, referenceVoltage: u32, referenceCurrent: u32, events: seq<Profile>)

  predicate Shaped(c: Configuration) {
    |c.events| == TYPES && forall t :: 0 <= t < TYPES ==> |c.events[t].phases| == PHASES
  }

  // One half-cycle of RMS values with 16 fraction bits.
  datatype Input = Input(
    sequence: u32, generation: u32, sampleRate: u32, discontinuity: bool, lastSample: u64,
    voltage: seq<u64>, current: seq<u64>, voltageValid: seq<bool>, currentValid: seq<bool>)

  predicate ShapedInput(i: Input) {
    |i.voltage| == |i.current| == |i.voltageValid| == |i.currentValid| == PHASES
  }

  datatype Evaluation = Evaluation(valid: bool, start: bool, recovered: bool, mask: seq<bool>, values: seq<u32>)

  predicate IsVoltage(t: nat) { t <= 4 || t == 8 }
  predicate IsSag(t: nat) { t == 0 || t == 2 || t == 5 }
  predicate IsSwell(t: nat) { t == 1 || t == 6 || t == 8 }
  predicate IsUnbalance(t: nat) { t == 4 || t == 7 }
  predicate IsRapidChange(t: nat) { t == RAPID_CHANGE }

  function Clamp32(x: nat): u32 { Min(x, B32 - 1) }

  function Values(source: seq<u64>): (v: seq<u32>)
    requires |source| == PHASES
    ensures |v| == PHASES
  {
    [Clamp32(source[0] / B16), Clamp32(source[1] / B16), Clamp32(source[2] / B16)]
  }

  function PhaseMask(p: Profile, slot: nat): (m: seq<bool>)
    requires |p.phases| == PHASES
    ensures |m| == PHASES
  {
    if p.perPhase then [slot == 0, slot == 1, slot == 2] else p.phases
  }

  predicate Covers(all: seq<bool>, part: seq<bool>)
    requires |all| == |part| == PHASES
  {
    (part[0] ==> all[0]) && (part[1] ==> all[1]) && (part[2] ==> all[2])
  }

  function CountOf(m: seq<bool>): nat
    requires |m| == PHASES
  {
    (if m[0] then 1 else 0) + (if m[1] then 1 else 0) + (if m[2] then 1 else 0)
  }

  function TotalOf(m: seq<bool>, v: seq<u32>): nat
    requires |m| == |v| == PHASES
  {
    (if m[0] then v[0] as int else 0) + (if m[1] then v[1] as int else 0) + (if m[2] then v[2] as int else 0)
  }

  function Quotient(n: nat, d: nat): nat
    requires d > 0
  {
    n / d
  }

  function Deviation(m: seq<bool>, v: seq<u32>, average: nat): nat
    requires |m| == |v| == PHASES
  {
    Max(if m[0] then Abs(v[0] as int - average) else 0,
        Max(if m[1] then Abs(v[1] as int - average) else 0, if m[2] then Abs(v[2] as int - average) else 0))
  }

  // A measurement of an input: not possible, a division by zero on the way, or
  // a metric relative to its reference.
  datatype Measurement = Unusable | DividesByZero | Usable(metric: nat, reference: nat)

  // The largest deviation of a configured phase from their mean, in 1/10000.
  // The total is tested for zero, the mean it is divided into is not.
  function Unbalance(m: seq<bool>, v: seq<u32>, valid: seq<bool>): Measurement
    requires |m| == |v| == |valid| == PHASES
  {
    if !Covers(valid, m) || CountOf(m) < 2 || TotalOf(m, v) == 0 then Unusable
    else
      var average := Quotient(TotalOf(m, v), CountOf(m));
      if average == 0 then DividesByZero else Usable(Quotient(Deviation(m, v, average) * 10000, average), 10000)
  }

  // The mean of at least two valid phases that do not all read zero is divided
  // into; it is not zero when they add up to at least one unit for each.
  predicate SafeMean(m: seq<bool>, v: seq<u32>, valid: seq<bool>)
    requires |m| == |v| == |valid| == PHASES
  {
    !Covers(valid, m) || CountOf(m) < 2 || TotalOf(m, v) == 0 || TotalOf(m, v) >= CountOf(m)
  }

  lemma MeanVanishes(m: seq<bool>, v: seq<u32>, valid: seq<bool>)
    requires |m| == |v| == |valid| == PHASES
    ensures Covers(valid, m) && CountOf(m) >= 2 && TotalOf(m, v) != 0 ==>
      (Quotient(TotalOf(m, v), CountOf(m)) == 0 <==> TotalOf(m, v) < CountOf(m))
    ensures Unbalance(m, v, valid) == DividesByZero <==> !SafeMean(m, v, valid)
  {
    var total, count := TotalOf(m, v), CountOf(m);
    hide TotalOf, CountOf, Covers;
    if count >= 2 {
      if total < count { DivUnique(total, count, 0); }
      if Quotient(total, count) == 0 { assert total == Quotient(total, count) * count + total % count; }
    }
  }

  // One unit on one of three valid phases is such an input.
  lemma OneUnitDividesByZero()
    ensures Unbalance([true, true, true], [1, 0, 0], [true, true, true]) == DividesByZero
    ensures !SafeMean([true, true, true], [1, 0, 0], [true, true, true])
  {
  }

  function Recovery(p: Profile): nat { if p.threshold > p.hysteresis then p.threshold - p.hysteresis else 0 }

  // The two comparisons, on a metric relative to `reference`.
  function Starts(t: nat, p: Profile, metric: nat, reference: nat): bool {
    if IsUnbalance(t) || IsRapidChange(t) then metric > p.threshold
    else if IsSag(t) then metric * 10000 < reference * p.threshold
    else IsSwell(t) && metric * 10000 > reference * p.threshold
  }

  function Recovers(t: nat, p: Profile, metric: nat, reference: nat): bool {
    if IsUnbalance(t) || IsRapidChange(t) then metric <= Recovery(p)
    else if IsSag(t) then metric * 10000 >= reference * ((p.threshold + p.hysteresis) % B32)
    else IsSwell(t) && metric * 10000 <= reference * Recovery(p)
  }

  // For a valid profile no value both starts an event and ends it.
  lemma StartAndRecoveryDisjoint(t: nat, p: Profile, metric: nat, reference: nat)
    requires ValidProfile(p) && reference > 0
    ensures !(Starts(t, p, metric, reference) && Recovers(t, p, metric, reference))
  {
    MulLe(p.threshold, p.threshold + p.hysteresis, reference);
    MulLe(Recovery(p), p.threshold, reference);
  }

  // Without a valid profile they can coincide: a threshold that wraps with its
  // hysteresis makes the same voltage start a sag and end it.
  lemma InvalidProfileCanOverlap()
    ensures var p := Profile(true, false, 0xFFFF_FFFF, 1, [true, true, true]);
            Starts(0, p, 0, 1) && Recovers(0, p, 0, 1)
  {
  }

  function Invalid(mask: seq<bool>, values: seq<u32>): Evaluation { Evaluation(false, false, false, mask, values) }

  // The metric and its reference, if the inputs allow one. `before` is the
  // voltage one whole cycle ago, if it was valid.
  function Metric(t: nat, slot: nat, p: Profile, c: Configuration, i: Input, before: Option<u32>): Measurement
    requires ShapedInput(i) && slot < PHASES && |p.phases| == PHASES
  {
    var voltage := IsVoltage(t);
    var values := Values(if voltage then i.voltage else i.current);
    var reference: nat := if voltage then c.referenceVoltage else c.referenceCurrent;
    if IsUnbalance(t) then Unbalance(p.phases, values, Validity(t, i))
    else if IsRapidChange(t) then
      if before.None? || reference == 0 then Unusable
      else Usable(Quotient(Abs(values[slot] as int - before.value as int) * 10000, reference), 10000)
    else if reference == 0 then Unusable
    else Usable(values[slot], reference)
  }

  function Validity(t: nat, i: Input): seq<bool> { if IsVoltage(t) then i.voltageValid else i.currentValid }

  // An evaluation ends with a result, or in a division by zero.
  datatype Outcome = Trap | Done(evaluation: Evaluation)

  function Evaluate(t: nat, slot: nat, p: Profile, c: Configuration, i: Input, before: Option<u32>): Outcome
    requires ShapedInput(i) && slot < PHASES && |p.phases| == PHASES
  {
    var values := Values(if IsVoltage(t) then i.voltage else i.current);
    var mask := PhaseMask(p, slot);
    if !Covers(p.phases, mask) || !Covers(Validity(t, i), mask) then Done(Invalid(mask, values))
    else
      match Metric(t, slot, p, c, i, before)
      case Unusable => Done(Invalid(mask, values))
      case DividesByZero => Trap
      case Usable(metric, reference) =>
        Done(Evaluation(true, Starts(t, p, metric, reference), Recovers(t, p, metric, reference), mask, values))
  }

  // No evaluation under a valid profile both starts and recovers.
  lemma EvaluationDisjoint(t: nat, slot: nat, p: Profile, c: Configuration, i: Input, before: Option<u32>)
    requires ShapedInput(i) && slot < PHASES && ValidProfile(p)
    ensures var o := Evaluate(t, slot, p, c, i, before);
            o.Done? ==> !(o.evaluation.start && o.evaluation.recovered)
  {
    match Metric(t, slot, p, c, i, before) {
      case Unusable =>
      case DividesByZero =>
      case Usable(metric, reference) => StartAndRecoveryDisjoint(t, p, metric, reference);
    }
    hide Starts, Recovers, Covers, Values, Unbalance;
  }

  // Per-phase profiles use one slot per configured phase, others the first.
  predicate Evaluated(p: Profile, slot: nat)
    requires |p.phases| == PHASES && slot < PHASES
  {
    p.enabled && if p.perPhase then p.phases[slot] else slot == 0
  }

  // What a caller can test before an input: whether some enabled unbalance would
  // divide by zero.
  predicate SafeFor(t: nat, p: Profile, i: Input)
    requires ShapedInput(i) && |p.phases| == PHASES
  {
    p.enabled && IsUnbalance(t) ==>
      SafeMean(p.phases, Values(if IsVoltage(t) then i.voltage else i.current), Validity(t, i))
  }

  predicate DividesSafely(c: Configuration, i: Input)
    requires Shaped(c) && ShapedInput(i)
  {
    forall t :: 0 <= t < TYPES ==> SafeFor(t, c.events[t], i)
  }

  // An evaluation divides by zero exactly at an unsafe unbalance, in whichever
  // slot it is made.
  lemma EvaluateTraps(t: nat, slot: nat, p: Profile, c: Configuration, i: Input, before: Option<u32>)
    requires ShapedInput(i) && slot < PHASES && |p.phases| == PHASES && Evaluated(p, slot)
    ensures Evaluate(t, slot, p, c, i, before) == Trap <==> !SafeFor(t, p, i)
  {
    var values := Values(if IsVoltage(t) then i.voltage else i.current);
    MeanVanishes(p.phases, values, Validity(t, i));
    assert !SafeMean(p.phases, values, Validity(t, i)) ==>
      Covers(p.phases, PhaseMask(p, slot)) && Covers(Validity(t, i), PhaseMask(p, slot));
    hide Unbalance, SafeMean, Values, Starts, Recovers, Covers;
  }

  // Some slot of an enabled unsafe unbalance is evaluated.
  lemma UnsafeIsEvaluated(t: nat, p: Profile, i: Input) returns (slot: nat)
    requires ShapedInput(i) && |p.phases| == PHASES && !SafeFor(t, p, i)
    ensures slot < PHASES && Evaluated(p, slot)
  {
    slot := if !p.perPhase || p.phases[0] then 0 else 1;
  }
}
