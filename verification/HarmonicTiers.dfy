/** The harmonic tier accumulators at one channel and order, and what they say
    about the families they were folded from. */
module HarmonicTiers {
  import opened Words
  import opened WideArithmetic
  import opened HarmonicMagnitude
  import opened PhaseVector
  import F = HarmonicFamilies

  // The sufficient statistics of one tier.
  datatype TierAccumulator = TierAccumulator(
    squareSum: Wide, valid: bool, phaseRe: Wide, phaseIm: Wide, angleValid: bool,
    contributors: u32, generation: u32, sampleRate: u32, nominal: u8, cycleCount: u8, filterProfile: u8,
    sampleCount: u64, firstSample: u64, lastSample: u64, firstSequence: u32, lastSequence: u32,
    arithmeticError: bool, active: bool, first: bool)

  function Cleared(first: bool): TierAccumulator {
    TierAccumulator(ZERO, false, ZERO, ZERO, false, 0, 0, 0, 0, 0, 0, 0, 0, 0, 0, 0, false, false, first)
  }

  function BeginTier(t: TierAccumulator, i: F.Input): TierAccumulator {
    Cleared(t.first).(
      active := true, valid := true, angleValid := true,
      generation := i.generation, sampleRate := i.sampleRate, nominal := i.nominal,
      cycleCount := i.cycleCount, filterProfile := i.filterProfile,
      firstSample := i.firstSample, lastSample := F.LastSample(i),
      firstSequence := i.sequence, lastSequence := i.sequence)
  }

  function AddSamples(count: u64, more: u64): (u64, bool) {
    if U64_MAX - count < more then (U64_MAX, true) else (count + more, false)
  }

  const QUARTER: u32 := 0x4000_0000

  function Turns(angle: F.u20): u32 { angle * B32 / 360000 % B32 }

  // One component of a point's vector; `lead` is a quarter turn for the cosine.
  function Component(table: seq<int>, lead: u32, p: F.Point): (component: i64)
    requires QuarterTable(table)
    ensures Abs(component) <= 0x20_0000_0000
  {
    SineQ37(table, Add32(Turns(p.angle), lead))
  }

  // The square sum of the next state, and whether it stuck at its limit.
  function SquareAfter(sum: Wide, p: F.Point): (Wide, bool) {
    if p.magnitudeValid then AccumulateSquare(sum, p.magnitude) else (sum, false)
  }

  function PhaseAfter(table: seq<int>, lead: u32, sum: Wide, p: F.Point): Wide
    requires QuarterTable(table)
  {
    if p.magnitudeValid && p.angleValid then AddPhaseProduct(sum, p.magnitude, Component(table, lead, p)) else sum
  }

  function AccumulateBase(table: seq<int>, tier: TierAccumulator, i: F.Input): TierAccumulator
    requires QuarterTable(table)
  {
    var p := i.point;
    var t := if tier.active then tier else BeginTier(tier, i);
    var (samples, clipped) := AddSamples(t.sampleCount, i.sampleCount);
    var (square, overflow) := SquareAfter(t.squareSum, p);
    t.(lastSample := F.LastSample(i), lastSequence := i.sequence, sampleCount := samples,
       arithmeticError := t.arithmeticError || clipped || overflow,
       contributors := Add32(t.contributors, 1),
       valid := t.valid && p.magnitudeValid, angleValid := t.angleValid && p.angleValid,
       squareSum := square,
       phaseRe := PhaseAfter(table, QUARTER, t.phaseRe, p),
       phaseIm := PhaseAfter(table, 0, t.phaseIm, p))
  }

  // ---- What the accumulators mean --------------------------------------

  ghost function Term(table: seq<int>, lead: u32, p: F.Point): int
    requires QuarterTable(table)
  {
    if p.magnitudeValid && p.angleValid then p.magnitude * Component(table, lead, p) else 0
  }

  // The exact integer vector component over a list of base families.
  ghost function PhaseSum(table: seq<int>, lead: u32, families: seq<F.Input>): int
    requires QuarterTable(table)
  {
    if families == [] then 0
    else PhaseSum(table, lead, families[..|families| - 1]) + Term(table, lead, families[|families| - 1].point)
  }

  ghost function Magnitudes(families: seq<F.Input>): seq<u64> {
    if families == [] then []
    else
      var last := families[|families| - 1].point;
      Magnitudes(families[..|families| - 1]) + (if last.magnitudeValid then [last.magnitude] else [])
  }

  ghost predicate AllMagnitudes(families: seq<F.Input>) {
    forall k :: 0 <= k < |families| ==> families[k].point.magnitudeValid
  }

  ghost predicate AllAngles(families: seq<F.Input>) {
    forall k :: 0 <= k < |families| ==> families[k].point.angleValid
  }

  ghost predicate PhaseHolds(table: seq<int>, lead: u32, sum: Wide, families: seq<F.Input>)
    requires QuarterTable(table)
  {
    Value(sum) == PhaseSum(table, lead, families) % B128
  }

  ghost predicate HeaderHolds(t: TierAccumulator, families: seq<F.Input>) {
    families != [] ==>
      && t.generation == families[0].generation && t.sampleRate == families[0].sampleRate
      && t.nominal == families[0].nominal && t.cycleCount == families[0].cycleCount
      && t.filterProfile == families[0].filterProfile
      && t.firstSequence == families[0].sequence
      && t.lastSequence == families[|families| - 1].sequence
      && t.lastSample == F.LastSample(families[|families| - 1])
  }

  ghost predicate SquaresHold(squares: Wide, samples: u64, error: bool, families: seq<F.Input>) {
    |families| < B32 ==>
      && !error
      && samples <= |families| * (B32 - 1)
      && Value(squares) == SumSquares(Magnitudes(families))
  }

  // A base tier's accumulators are exactly those of the families it holds.
  ghost predicate BaseTier(table: seq<int>, t: TierAccumulator, spec: F.Tier)
    requires QuarterTable(table)
  {
    && t.first == spec.first
    && (t.active <==> spec.families != [])
    && t.contributors == |spec.families| % B32
    && HeaderHolds(t, spec.families)
    && (t.active ==> (t.valid <==> AllMagnitudes(spec.families)) && (t.angleValid <==> AllAngles(spec.families)))
    && PhaseHolds(table, QUARTER, t.phaseRe, spec.families)
    && PhaseHolds(table, 0, t.phaseIm, spec.families)
    && SquaresHold(t.squareSum, t.sampleCount, t.arithmeticError, spec.families)
  }

  lemma ClearedIsEmpty(table: seq<int>, first: bool)
    requires QuarterTable(table)
    ensures BaseTier(table, Cleared(first), F.Tier([], first))
  {
  }

  lemma PhaseSumAppend(table: seq<int>, lead: u32, families: seq<F.Input>, i: F.Input)
    requires QuarterTable(table)
    ensures PhaseSum(table, lead, families + [i]) == PhaseSum(table, lead, families) + Term(table, lead, i.point)
  {
    assert (families + [i])[..|families|] == families;
  }

  lemma MagnitudesAppend(families: seq<F.Input>, i: F.Input)
    ensures Magnitudes(families + [i])
         == Magnitudes(families) + if i.point.magnitudeValid then [i.point.magnitude] else []
  {
    assert (families + [i])[..|families|] == families;
  }

  lemma {:induction false} MagnitudesSmall(families: seq<F.Input>)
    ensures |Magnitudes(families)| <= |families|
    ensures AllMagnitudes(families) ==> |Magnitudes(families)| == |families|
    ensures forall k :: 0 <= k < |Magnitudes(families)| ==> Magnitudes(families)[k] < MAGNITUDE_LIMIT
  {
    if families != [] {
      MagnitudesSmall(families[..|families| - 1]);
    }
  }

  lemma {:induction false} PhaseSumConcat(table: seq<int>, lead: u32, a: seq<F.Input>, b: seq<F.Input>)
    requires QuarterTable(table)
    ensures PhaseSum(table, lead, a + b) == PhaseSum(table, lead, a) + PhaseSum(table, lead, b)
  {
    if b == [] {
      assert a + b == a;
    } else {
      PhaseSumConcat(table, lead, a, b[..|b| - 1]);
      assert (a + b)[..|a + b| - 1] == a + b[..|b| - 1];
    }
  }

  lemma PhaseAfterHolds(table: seq<int>, lead: u32, sum: Wide, families: seq<F.Input>, i: F.Input)
    requires QuarterTable(table) && PhaseHolds(table, lead, sum, families)
    ensures PhaseHolds(table, lead, PhaseAfter(table, lead, sum, i.point), families + [i])
  {
    PhaseSumAppend(table, lead, families, i);
    ModAdd(PhaseSum(table, lead, families), Term(table, lead, i.point), B128);
  }

  lemma SquareStaysExact(squares: Wide, families: seq<F.Input>, i: F.Input)
    requires |families| + 1 < B32
    requires Value(squares) == SumSquares(Magnitudes(families))
    ensures !SquareAfter(squares, i.point).1
    ensures Value(SquareAfter(squares, i.point).0) == SumSquares(Magnitudes(families + [i]))
  {
    MagnitudesAppend(families, i);
    if i.point.magnitudeValid {
      MagnitudesSmall(families + [i]);
      SumSquaresAppend(Magnitudes(families), i.point.magnitude);
      SquaresFit(Magnitudes(families + [i]));
    } else {
      assert Magnitudes(families) + [] == Magnitudes(families);
    }
  }

  lemma SquareAfterHolds(squares: Wide, samples: u64, error: bool, families: seq<F.Input>, i: F.Input)
    requires SquaresHold(squares, samples, error, families)
    ensures var (count, clipped) := AddSamples(samples, i.sampleCount);
            var (square, overflow) := SquareAfter(squares, i.point);
            SquaresHold(square, count, error || clipped || overflow, families + [i])
  {
    if |families| + 1 < B32 {
      SquareStaysExact(squares, families, i);
    }
  }

  lemma BegunTierHolds(table: seq<int>, t: TierAccumulator, first: bool, i: F.Input)
    requires QuarterTable(table) && BaseTier(table, t, F.Tier([], first))
    ensures var u := BeginTier(t, i);
            && u.contributors == 0 && u.first == first
            && PhaseHolds(table, QUARTER, u.phaseRe, []) && PhaseHolds(table, 0, u.phaseIm, [])
            && SquaresHold(u.squareSum, u.sampleCount, u.arithmeticError, [])
  {
  }

  // Folding a family into a tier keeps its accumulators exact.
  lemma AccumulateBaseHolds(table: seq<int>, t: TierAccumulator, spec: F.Tier, i: F.Input)
    requires QuarterTable(table) && BaseTier(table, t, spec)
    ensures BaseTier(table, AccumulateBase(table, t, i), spec.(families := spec.families + [i]))
  {
    var families := spec.families;
    if families == [] { BegunTierHolds(table, t, spec.first, i); }
    var begun := if t.active then t else BeginTier(t, i);
    ContributorsCount(|families|);
    PhaseAfterHolds(table, QUARTER, begun.phaseRe, families, i);
    PhaseAfterHolds(table, 0, begun.phaseIm, families, i);
    SquareAfterHolds(begun.squareSum, begun.sampleCount, begun.arithmeticError, families, i);
    AccumulateBaseFlags(table, t, spec, i);
  }

  lemma ContributorsCount(n: nat)
    ensures Add32(n % B32, 1) == (n + 1) % B32
  {
  }

  lemma AccumulateBaseFlags(table: seq<int>, t: TierAccumulator, spec: F.Tier, i: F.Input)
    requires QuarterTable(table) && BaseTier(table, t, spec)
    ensures var u := AccumulateBase(table, t, i);
            var all := spec.families + [i];
            && u.active && u.first == spec.first
            && HeaderHolds(u, all)
            && (u.valid <==> AllMagnitudes(all)) && (u.angleValid <==> AllAngles(all))
  {
    var families, all := spec.families, spec.families + [i];
    assert all[|families|] == i;
    assert forall k :: 0 <= k < |families| ==> all[k] == families[k];
    assert AllMagnitudes(all) <==> AllMagnitudes(families) && i.point.magnitudeValid;
    assert AllAngles(all) <==> AllAngles(families) && i.point.angleValid;
  }

  // ---- The vector sum is exact, not merely congruent -------------------

  lemma TermBound(table: seq<int>, lead: u32, p: F.Point)
    requires QuarterTable(table)
    ensures Abs(Term(table, lead, p)) <= 0x2000_0000_0000_0000_0000
  {
    var c := Component(table, lead, p);
    MulLeBoth(p.magnitude, 0x100_0000_0000, Abs(c), 0x20_0000_0000);
    if c < 0 { NegatedProduct(p.magnitude, c); }
  }

  lemma {:induction false} PhaseSumBound(table: seq<int>, lead: u32, families: seq<F.Input>)
    requires QuarterTable(table)
    ensures Abs(PhaseSum(table, lead, families)) <= |families| * 0x2000_0000_0000_0000_0000
  {
    if families != [] {
      PhaseSumBound(table, lead, families[..|families| - 1]);
      TermBound(table, lead, families[|families| - 1].point);
    }
  }

  // With fewer than 2^32 base families the two's-complement limbs hold the
  // exact integer vector sum.
  lemma VectorSumExact(table: seq<int>, re: Wide, im: Wide, families: seq<F.Input>)
    requires QuarterTable(table) && |families| < B32
    requires PhaseHolds(table, QUARTER, re, families) && PhaseHolds(table, 0, im, families)
    ensures SignedValue(re) == PhaseSum(table, QUARTER, families)
    ensures SignedValue(im) == PhaseSum(table, 0, families)
  {
    PhaseSumBound(table, QUARTER, families);
    PhaseSumBound(table, 0, families);
    SignedExact(re, PhaseSum(table, QUARTER, families));
    SignedExact(im, PhaseSum(table, 0, families));
  }

  // ---- Finalising and cascading ----------------------------------------

  // A published family: the root-mean-square magnitude and the vector whose
  // direction is the published angle.
  datatype FamilyRecord = FamilyRecord(period: F.Period, contributors: u32,
    magnitude: u64, magnitudeValid: bool, phaseRe: Wide, phaseIm: Wide, angleValid: bool,
    firstSequence: u32, lastSequence: u32, target: u64, overshoot: u32, contaminated: bool, first: bool)

  // The finalised values of a tier at this point.
  datatype Finalized = Finalized(magnitude: u64, valid: bool)

  predicate FinalValid(t: TierAccumulator) {
    t.active && t.contributors != 0 && t.valid && !t.arithmeticError
  }

  ghost predicate FinalizedHolds(t: TierAccumulator, f: Finalized) {
    && (f.valid <==> FinalValid(t))
    && (if f.valid then t.contributors > 0 && MeanRoot(Value(t.squareSum), t.contributors, f.magnitude)
        else f.magnitude == 0)
  }

  method FinalizeValues(t: TierAccumulator) returns (f: Finalized)
    ensures FinalizedHolds(t, f)
  {
    if FinalValid(t) {
      var magnitude := FinalizeMagnitude(t.squareSum, t.contributors);
      f := Finalized(magnitude, true);
    } else {
      f := Finalized(0, false);
    }
  }

  function CascadePhase(sum: Wide, source: Wide, usable: bool): Wide {
    if usable then AddWrapped(sum, source) else sum
  }

  // The source's raw vector sum is cascaded, not its finalised angle.
  function AccumulateFinalized(tier: TierAccumulator, source: TierAccumulator, f: Finalized): TierAccumulator {
    var t :=
      if tier.active then tier
      else Cleared(tier.first).(
        active := true, valid := true, angleValid := true,
        generation := source.generation, sampleRate := source.sampleRate, nominal := source.nominal,
        cycleCount := source.cycleCount, filterProfile := source.filterProfile,
        firstSample := source.firstSample, firstSequence := source.firstSequence);
    var (samples, clipped) := AddSamples(t.sampleCount, source.sampleCount);
    var sourceAngle := source.active && source.contributors != 0 && source.angleValid && !source.arithmeticError;
    var angles := t.angleValid && sourceAngle;
    var (square, overflow) := if f.valid then AccumulateSquare(t.squareSum, f.magnitude) else (t.squareSum, false);
    t.(lastSample := source.lastSample, lastSequence := source.lastSequence, sampleCount := samples,
       arithmeticError := t.arithmeticError || source.arithmeticError || clipped || overflow,
       contributors := Add32(t.contributors, 1),
       valid := t.valid && f.valid, angleValid := angles,
       squareSum := square,
       phaseRe := CascadePhase(t.phaseRe, source.phaseRe, f.valid && angles),
       phaseIm := CascadePhase(t.phaseIm, source.phaseIm, f.valid && angles))
  }

  // The two-hour tier: a count of parts and, while the point is valid in
  // magnitude and angle, the vector sum over all base families of all parts.
  ghost predicate CascadeTier(table: seq<int>, t: TierAccumulator, spec: F.Cascade)
    requires QuarterTable(table)
  {
    && t.first == spec.first
    && (t.active <==> spec.parts != [])
    && t.contributors == |spec.parts|
    && |spec.parts| < 12
    && CascadeHeader(t, F.Flatten(spec.parts))
    && CascadeVector(table, t, F.Flatten(spec.parts))
    && CascadeValues(t, spec.parts)
  }

  ghost predicate CascadeHeader(t: TierAccumulator, families: seq<F.Input>) {
    families != [] ==>
      && t.firstSequence == families[0].sequence
      && t.lastSequence == families[|families| - 1].sequence
  }

  ghost predicate VectorHolds(table: seq<int>, usable: bool, re: Wide, im: Wide, families: seq<F.Input>)
    requires QuarterTable(table)
  {
    usable ==> PhaseHolds(table, QUARTER, re, families) && PhaseHolds(table, 0, im, families)
  }

  ghost predicate CascadeVector(table: seq<int>, t: TierAccumulator, families: seq<F.Input>)
    requires QuarterTable(table)
  {
    VectorHolds(table, t.active && t.valid && t.angleValid, t.phaseRe, t.phaseIm, families)
  }

  // A finalised ten-minute magnitude: the root of its part's mean square.
  ghost predicate PartRoot(part: seq<F.Input>, root: nat) {
    part != [] && root < MAGNITUDE_LIMIT && MeanRoot(SumSquares(Magnitudes(part)), |part|, root)
  }

  ghost predicate PartRoots(parts: seq<seq<F.Input>>, roots: seq<nat>) {
    |roots| == |parts| && forall k :: 0 <= k < |parts| ==> PartRoot(parts[k], roots[k])
  }

  ghost predicate CascadeRoots(squares: nat, parts: seq<seq<F.Input>>) {
    exists roots :: PartRoots(parts, roots) && squares == SumSquares(roots)
  }

  // The two-hour validity and magnitude statistics, while the whole interval
  // has fewer than 2^32 base families.
  ghost predicate CascadeValues(t: TierAccumulator, parts: seq<seq<F.Input>>) {
    |F.Flatten(parts)| < B32 ==>
      && !t.arithmeticError && t.sampleCount <= |F.Flatten(parts)| * (B32 - 1)
      && Value(t.squareSum) <= |parts| * 0x1_0000_0000_0000_0000_0000
      && (t.active ==> FlagsHold(t, F.Flatten(parts)))
      && (t.active && t.valid ==> CascadeRoots(Value(t.squareSum), parts))
  }

  ghost predicate FlagsHold(t: TierAccumulator, families: seq<F.Input>) {
    (t.valid <==> AllMagnitudes(families)) && (t.angleValid <==> AllAngles(families))
  }

  lemma ClearedCascadeIsEmpty(table: seq<int>, first: bool)
    requires QuarterTable(table)
    ensures CascadeTier(table, Cleared(first), F.Cascade([], first))
  {
  }

  lemma PhaseJoin(table: seq<int>, lead: u32, a: Wide, b: Wide, x: seq<F.Input>, y: seq<F.Input>)
    requires QuarterTable(table) && PhaseHolds(table, lead, a, x) && PhaseHolds(table, lead, b, y)
    ensures PhaseHolds(table, lead, AddWrapped(a, b), x + y)
  {
    PhaseSumConcat(table, lead, x, y);
    ModAdd(PhaseSum(table, lead, x), PhaseSum(table, lead, y), B128);
  }

  lemma ZeroPhase(table: seq<int>, lead: u32)
    requires QuarterTable(table)
    ensures PhaseHolds(table, lead, ZERO, [])
  {
  }

  lemma VectorExtends(table: seq<int>, usable: bool, still: bool, re: Wide, im: Wide,
    sourceRe: Wide, sourceIm: Wide, families: seq<F.Input>, part: seq<F.Input>)
    requires QuarterTable(table) && VectorHolds(table, usable, re, im, families) && (still ==> usable)
    requires PhaseHolds(table, QUARTER, sourceRe, part) && PhaseHolds(table, 0, sourceIm, part)
    ensures VectorHolds(table, still, CascadePhase(re, sourceRe, still), CascadePhase(im, sourceIm, still),
                        families + part)
  {
    if still {
      PhaseJoin(table, QUARTER, re, sourceRe, families, part);
      PhaseJoin(table, 0, im, sourceIm, families, part);
    }
  }

  // Cascading a ten-minute tier appends its families to the two-hour vector.
  lemma AccumulateFinalizedVector(table: seq<int>, t: TierAccumulator, families: seq<F.Input>,
    source: TierAccumulator, part: F.Tier, f: Finalized)
    requires QuarterTable(table) && CascadeVector(table, t, families) && (!t.active ==> families == [])
    requires BaseTier(table, source, part)
    ensures CascadeVector(table, AccumulateFinalized(t, source, f), families + part.families)
  {
    var u := AccumulateFinalized(t, source, f);
    var re := if t.active then t.phaseRe else ZERO;
    var im := if t.active then t.phaseIm else ZERO;
    var usable := t.active ==> t.valid && t.angleValid;
    if !t.active { ZeroPhase(table, QUARTER); ZeroPhase(table, 0); }
    var taken := f.valid && u.angleValid;
    if u.valid && u.angleValid {
      VectorExtends(table, usable, taken, re, im, source.phaseRe, source.phaseIm, families, part.families);
      assert u.phaseRe == CascadePhase(re, source.phaseRe, taken);
    }
  }

  lemma ConcatFlags(a: seq<F.Input>, b: seq<F.Input>)
    ensures AllMagnitudes(a + b) <==> AllMagnitudes(a) && AllMagnitudes(b)
    ensures AllAngles(a + b) <==> AllAngles(a) && AllAngles(b)
  {
    assert forall k :: 0 <= k < |a| ==> (a + b)[k] == a[k];
    assert forall k :: 0 <= k < |b| ==> (a + b)[|a| + k] == b[k];
    assert (a + b)[..|a|] == a && (a + b)[|a|..] == b;
  }

  // A finalised magnitude is a forty-bit value again.
  lemma FinalizedIsPartRoot(source: TierAccumulator, families: seq<F.Input>, f: Finalized)
    requires FinalizedHolds(source, f) && f.valid && AllMagnitudes(families)
    requires families != [] && source.contributors == |families|
    requires Value(source.squareSum) == SumSquares(Magnitudes(families))
    ensures PartRoot(families, f.magnitude)
  {
    MagnitudesSmall(families);
    MagnitudeBetween(Magnitudes(families), 0, MAGNITUDE_LIMIT - 1, f.magnitude);
  }

  lemma RootsExtend(squares: nat, parts: seq<seq<F.Input>>, part: seq<F.Input>, root: nat)
    requires CascadeRoots(squares, parts) && PartRoot(part, root)
    ensures CascadeRoots(squares + root * root, parts + [part])
  {
    var roots :| PartRoots(parts, roots) && squares == SumSquares(roots);
    SumSquaresAppend(roots, root);
    hide PartRoot;
    assert PartRoots(parts + [part], roots + [root]);
  }

  // What a usable ten-minute tier contributes to the two-hour statistics.
  lemma SourceValues(table: seq<int>, source: TierAccumulator, part: F.Tier, f: Finalized)
    requires QuarterTable(table) && BaseTier(table, source, part)
    requires FinalizedHolds(source, f) && 0 < |part.families| < B32
    ensures !source.arithmeticError && source.sampleCount <= |part.families| * (B32 - 1)
    ensures f.valid <==> AllMagnitudes(part.families)
    ensures source.active && source.contributors != 0
    ensures source.angleValid <==> AllAngles(part.families)
    ensures f.valid ==> PartRoot(part.families, f.magnitude)
    ensures f.magnitude * f.magnitude <= 0x1_0000_0000_0000_0000_0000
  {
    assert source.contributors == |part.families|;
    if f.valid {
      FinalizedIsPartRoot(source, part.families, f);
      SquareLimit(f.magnitude);
    }
  }

  lemma SamplesFit(count: nat, more: nat, a: nat, b: nat)
    requires count <= a * (B32 - 1) && more <= b * (B32 - 1) && a + b < B32
    ensures count + more <= (a + b) * (B32 - 1) <= U64_MAX
  {
  }

  // Cascading a ten-minute tier keeps the two-hour statistics exact.
  lemma AccumulateFinalizedValues(table: seq<int>, t: TierAccumulator, parts: seq<seq<F.Input>>,
    source: TierAccumulator, part: F.Tier, f: Finalized)
    requires QuarterTable(table) && BaseTier(table, source, part) && part.families != []
    requires CascadeValues(t, parts) && (t.active <==> parts != []) && |parts| < 12
    requires FinalizedHolds(source, f)
    ensures CascadeValues(AccumulateFinalized(t, source, f), parts + [part.families])
  {
    var families := F.Flatten(parts);
    F.FlattenAppend(parts, part.families);
    if |families + part.families| < B32 {
      SourceValues(table, source, part, f);
      ConcatFlags(families, part.families);
      SamplesFit(t.sampleCount, source.sampleCount, |families|, |part.families|);
      if parts == [] { EmptyCascade(); }
      var squares := if t.active then Value(t.squareSum) else 0;
      if f.valid && (t.active ==> t.valid) { RootsExtend(squares, parts, part.families, f.magnitude); }
      hide BaseTier, FinalizedHolds, PartRoot, CascadeRoots, AllMagnitudes, AllAngles, F.Flatten;
      ExtendedValues(t, parts, source, part.families, f);
    }
  }

  lemma EmptyCascade()
    ensures F.Flatten([]) == [] && CascadeRoots(0, []) && AllMagnitudes([]) && AllAngles([])
  {
    assert PartRoots([], []);
    assert SumSquares([]) == 0;
  }

  // The same step on the accumulator alone.
  lemma ExtendedValues(t: TierAccumulator, parts: seq<seq<F.Input>>, source: TierAccumulator,
    part: seq<F.Input>, f: Finalized)
    requires CascadeValues(t, parts) && (t.active <==> parts != []) && |parts| < 12
    requires F.Flatten(parts + [part]) == F.Flatten(parts) + part && |F.Flatten(parts) + part| < B32
    requires !source.arithmeticError && source.active && source.contributors != 0
    requires source.sampleCount <= |part| * (B32 - 1)
    requires t.sampleCount + source.sampleCount <= |F.Flatten(parts) + part| * (B32 - 1) <= U64_MAX
    requires f.valid <==> AllMagnitudes(part)
    requires source.angleValid <==> AllAngles(part)
    requires f.magnitude * f.magnitude <= 0x1_0000_0000_0000_0000_0000
    requires AllMagnitudes(F.Flatten(parts) + part) <==> AllMagnitudes(F.Flatten(parts)) && AllMagnitudes(part)
    requires AllAngles(F.Flatten(parts) + part) <==> AllAngles(F.Flatten(parts)) && AllAngles(part)
    requires !t.active ==> F.Flatten(parts) == [] && AllMagnitudes(F.Flatten(parts)) && AllAngles(F.Flatten(parts))
    requires f.valid && (t.active ==> t.valid) ==>
      CascadeRoots((if t.active then Value(t.squareSum) else 0) + f.magnitude * f.magnitude, parts + [part])
    ensures CascadeValues(AccumulateFinalized(t, source, f), parts + [part])
  {
    hide CascadeRoots, AllMagnitudes, AllAngles, F.Flatten;
  }

  lemma AccumulateFinalizedHolds(table: seq<int>, t: TierAccumulator, spec: F.Cascade,
    source: TierAccumulator, part: F.Tier, f: Finalized)
    requires QuarterTable(table) && CascadeTier(table, t, spec) && F.CascadeOpen(spec.parts)
    requires BaseTier(table, source, part) && part.families != [] && FinalizedHolds(source, f)
    ensures F.Flatten(spec.parts + [part.families]) != [] && |spec.parts + [part.families]| <= 12
    ensures CascadeFull(table, AccumulateFinalized(t, source, f), spec.(parts := spec.parts + [part.families]))
  {
    var families := F.Flatten(spec.parts);
    F.FlattenAppend(spec.parts, part.families);
    CascadeFirst(t, spec);
    if spec.parts != [] { F.FlattenNonEmpty(spec.parts); }
    AccumulateFinalizedVector(table, t, families, source, part, f);
    CascadeHeaderExtends(t, families, source, part, f);
    AccumulateFinalizedValues(table, t, spec.parts, source, part, f);
  }

  lemma CascadeHeaderExtends(t: TierAccumulator, families: seq<F.Input>, source: TierAccumulator,
    part: F.Tier, f: Finalized)
    requires CascadeHeader(t, families) && (t.active <==> families != [])
    requires HeaderHolds(source, part.families) && part.families != []
    ensures CascadeHeader(AccumulateFinalized(t, source, f), families + part.families)
  {
    var all := families + part.families;
    assert all[|all| - 1] == part.families[|part.families| - 1];
  }

  lemma CascadeFirst(t: TierAccumulator, spec: F.Cascade)
    requires t.active <==> spec.parts != []
    ensures !t.active ==> F.Flatten(spec.parts) == []
  {
  }

  // ---- What a published family says ------------------------------------

  ghost predicate VectorIs(table: seq<int>, r: FamilyRecord, families: seq<F.Input>)
    requires QuarterTable(table)
  {
    && SignedValue(r.phaseRe) == PhaseSum(table, QUARTER, families)
    && SignedValue(r.phaseIm) == PhaseSum(table, 0, families)
  }

  // The 150/180-cycle and ten-minute families, in both directions.
  ghost predicate BaseRecordIs(table: seq<int>, r: FamilyRecord, families: seq<F.Input>)
    requires QuarterTable(table)
  {
    && (r.magnitudeValid <==> !r.contaminated && AllMagnitudes(families))
    && (r.angleValid <==> r.magnitudeValid && AllAngles(families) &&
                          (SignedValue(r.phaseRe) != 0 || SignedValue(r.phaseIm) != 0))
    && (r.magnitudeValid && families != [] ==> MeanRoot(SumSquares(Magnitudes(families)), |families|, r.magnitude))
    && VectorIs(table, r, families)
  }

  // The two-hour family over its ten-minute parts, in both directions.
  ghost predicate CascadeRecordIs(table: seq<int>, r: FamilyRecord, parts: seq<seq<F.Input>>)
    requires QuarterTable(table)
  {
    && (r.magnitudeValid <==> AllMagnitudes(F.Flatten(parts)))
    && (r.angleValid <==> r.magnitudeValid && AllAngles(F.Flatten(parts)) &&
                          (SignedValue(r.phaseRe) != 0 || SignedValue(r.phaseIm) != 0))
    && (r.magnitudeValid ==> RootOfParts(parts, r.magnitude))
    && (r.angleValid ==> VectorIs(table, r, F.Flatten(parts)))
  }

  // The root of the mean square of the parts' own finalised magnitudes.
  ghost predicate RootOfParts(parts: seq<seq<F.Input>>, magnitude: nat) {
    parts != [] && exists roots :: PartRoots(parts, roots) && MeanRoot(SumSquares(roots), |parts|, magnitude)
  }

  // A record reports the families the specification says it covers. The
  // numeric part is stated for fewer than 2^32 base families.
  ghost predicate RecordIs(table: seq<int>, r: FamilyRecord, spec: F.Record)
    requires QuarterTable(table)
  {
    && spec.families != []
    && r.period == spec.period && r.contributors == spec.contributors
    && r.target == spec.target && r.overshoot == spec.overshoot
    && r.contaminated == spec.contaminated && r.first == spec.first
    && r.firstSequence == spec.families[0].sequence
    && r.lastSequence == spec.families[|spec.families| - 1].sequence
    && (|spec.families| < B32 && spec.period != F.Hours2 ==> BaseRecordIs(table, r, spec.families))
    && (|spec.families| < B32 && spec.period == F.Hours2 ==> CascadeRecordIs(table, r, spec.parts))
  }

  ghost predicate RecordsAre(table: seq<int>, records: seq<FamilyRecord>, specs: seq<F.Record>)
    requires QuarterTable(table)
  {
    && |records| == |specs|
    && forall k :: 0 <= k < |records| ==> RecordIs(table, records[k], specs[k])
  }

  ghost predicate Emitted(t: TierAccumulator, period: F.Period, f: Finalized, target: u64, overshoot: u32,
    contaminated: bool, r: FamilyRecord)
  {
    && r.period == period && r.target == target && r.overshoot == overshoot
    && r.contributors == t.contributors && r.contaminated == contaminated && r.first == t.first
    && r.firstSequence == t.firstSequence && r.lastSequence == t.lastSequence
    && r.magnitudeValid == (f.valid && !contaminated) && r.magnitude == f.magnitude
    && r.phaseRe == t.phaseRe && r.phaseIm == t.phaseIm
    && (r.angleValid <==> r.magnitudeValid && t.angleValid && (SignedValue(t.phaseRe) != 0 || SignedValue(t.phaseIm) != 0))
  }

  lemma BaseTierEnd(table: seq<int>, t: TierAccumulator, spec: F.Tier)
    requires QuarterTable(table) && BaseTier(table, t, spec) && spec.families != []
    ensures t.lastSample == F.LastSample(spec.families[|spec.families| - 1])
  {
  }

  lemma BaseTierCount(table: seq<int>, t: TierAccumulator, spec: F.Tier)
    requires QuarterTable(table) && BaseTier(table, t, spec) && spec.families != [] && |spec.families| < B32
    ensures t.contributors == |spec.families|
    ensures t.lastSample == F.LastSample(spec.families[|spec.families| - 1])
  {
  }

  lemma BaseTierRecord(table: seq<int>, t: TierAccumulator, spec: F.Tier, f: Finalized, r: FamilyRecord,
    period: F.Period, target: u64, overshoot: u32, contaminated: bool)
    requires QuarterTable(table) && BaseTier(table, t, spec) && spec.families != [] && period != F.Hours2
    requires FinalizedHolds(t, f) && Emitted(t, period, f, target, overshoot, contaminated, r)
    ensures RecordIs(table, r, F.Record(period, spec.families, |spec.families| % B32, target, overshoot,
                                        contaminated, spec.first, []))
  {
    if |spec.families| < B32 {
      VectorSumExact(table, t.phaseRe, t.phaseIm, spec.families);
      assert t.contributors == |spec.families|;
    }
    hide QuarterTable, PhaseSum;
  }

  // What the twelfth part leaves before the tier is cleared.
  ghost predicate CascadeFull(table: seq<int>, t: TierAccumulator, spec: F.Cascade)
    requires QuarterTable(table)
  {
    && t.first == spec.first && t.active && spec.parts != [] && t.contributors == |spec.parts|
    && CascadeHeader(t, F.Flatten(spec.parts))
    && CascadeVector(table, t, F.Flatten(spec.parts))
    && CascadeValues(t, spec.parts)
  }

  lemma CascadeRecord(table: seq<int>, t: TierAccumulator, spec: F.Cascade, f: Finalized, r: FamilyRecord,
    target: u64, overshoot: u32)
    requires QuarterTable(table) && CascadeFull(table, t, spec) && F.Flatten(spec.parts) != []
    requires FinalizedHolds(t, f) && Emitted(t, F.Hours2, f, target, overshoot, false, r)
    ensures RecordIs(table, r, F.Record(F.Hours2, F.Flatten(spec.parts), |spec.parts|, target, overshoot,
                                        false, spec.first, spec.parts))
  {
    if |F.Flatten(spec.parts)| < B32 {
      if r.angleValid { VectorSumExact(table, t.phaseRe, t.phaseIm, F.Flatten(spec.parts)); }
      if r.magnitudeValid { RootsOf(Value(t.squareSum), spec.parts, r.magnitude); }
    }
  }

  lemma RootsOf(squares: nat, parts: seq<seq<F.Input>>, magnitude: nat)
    requires CascadeRoots(squares, parts) && parts != [] && MeanRoot(squares, |parts|, magnitude)
    ensures RootOfParts(parts, magnitude)
  {
    var roots :| PartRoots(parts, roots) && squares == SumSquares(roots);
  }

  // A two-hour magnitude lies between the extremes of its base families.
  lemma TwoHourBetween(parts: seq<seq<F.Input>>, magnitude: nat, low: nat, high: nat)
    requires RootOfParts(parts, magnitude)
    requires forall k :: 0 <= k < |parts| ==> MagnitudesBetween(parts[k], low, high)
    ensures low <= magnitude <= high
  {
    var roots :| PartRoots(parts, roots) && MeanRoot(SumSquares(roots), |parts|, magnitude);
    forall k | 0 <= k < |parts| ensures low <= roots[k] <= high {
      PartBetween(parts[k], roots[k], low, high);
    }
    MagnitudeBetween(roots, low, high, magnitude);
  }

  ghost predicate MagnitudesBetween(part: seq<F.Input>, low: nat, high: nat) {
    && AllMagnitudes(part)
    && forall k :: 0 <= k < |Magnitudes(part)| ==> low <= Magnitudes(part)[k] <= high
  }

  lemma PartBetween(part: seq<F.Input>, root: nat, low: nat, high: nat)
    requires PartRoot(part, root) && MagnitudesBetween(part, low, high)
    ensures low <= root <= high
  {
    MagnitudesSmall(part);
    MagnitudeBetween(Magnitudes(part), low, high, root);
  }

  lemma ExtendedCascadeStaysOpen(table: seq<int>, t: TierAccumulator, spec: F.Cascade)
    requires QuarterTable(table) && CascadeFull(table, t, spec) && |spec.parts| < 12
    ensures CascadeTier(table, t, spec)
  {
  }

  lemma RecordsJoin(table: seq<int>, a: seq<FamilyRecord>, x: seq<F.Record>,
    b: seq<FamilyRecord>, y: seq<F.Record>)
    requires QuarterTable(table) && RecordsAre(table, a, x) && RecordsAre(table, b, y)
    ensures RecordsAre(table, a + b, x + y)
  {
    hide RecordIs;
  }
}
