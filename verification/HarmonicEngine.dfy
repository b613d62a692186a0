/** The harmonic engine at one channel and order: accumulators in place,
    refining the family lists of HarmonicFamilies. */
module HarmonicEngine {
  import opened Words
  import opened WideArithmetic
  import opened HarmonicMagnitude
  import opened PhaseVector
  import opened HarmonicTiers
  import F = HarmonicFamilies

  class Engine {
    const table: seq<int>
    var short: TierAccumulator
    var ten: TierAccumulator
    var two: TierAccumulator
    var target: u64
    var toggle: bool
    var haveToggle: bool
    var targetValid: bool
    var contaminated: bool
    var lastSequence: u32
    var expectedFirst: u64
    var haveInput: bool
    var discontinuity: bool
    var ready: bool
    // The base families behind each accumulator.
    ghost var shortList: F.Tier
    ghost var tenList: F.Tier
    ghost var twoList: F.Cascade

    ghost function View(): F.State
      reads this
    {
      F.State(shortList, tenList, twoList, target, toggle, haveToggle, targetValid, contaminated,
              lastSequence, expectedFirst, haveInput, discontinuity, ready)
    }

    ghost predicate Exact()
      reads this
    {
      && QuarterTable(table)
      && BaseTier(table, short, shortList)
      && BaseTier(table, ten, tenList)
      && CascadeTier(table, two, twoList)
    }

    ghost predicate Valid()
      reads this
    {
      Exact() && F.Inv(View())
    }

    constructor (table: seq<int>)
      requires QuarterTable(table)
      ensures Valid() && View() == F.Initial() && this.table == table
    {
      this.table := table;
      short, ten, two := Cleared(true), Cleared(true), Cleared(true);
      target, toggle, haveToggle, targetValid, contaminated := 0, false, false, false, true;
      lastSequence, expectedFirst, haveInput, discontinuity, ready := 0, 0, false, true, true;
      shortList, tenList, twoList := F.Tier([], true), F.Tier([], true), F.Cascade([], true);
      new;
      ClearedIsEmpty(table, true);
      ClearedCascadeIsEmpty(table, true);
      F.EveryRun([]);
    }

    method NoteTransportDiscontinuity()
      requires Valid()
      modifies this`discontinuity
      ensures Valid() && View() == F.Step(old(View()), F.TransportGap).0
    {
      hide BaseTier, CascadeTier, F.Inv;
      F.StepPreserves(View(), F.TransportGap);
      discontinuity := true;
    }

    method ObserveTimingContext(timing: F.Timing)
      requires Valid()
      modifies this
      ensures Valid() && View() == F.ObserveTiming(old(View()), timing)
    {
      hide BaseTier, CascadeTier, F.Inv;
      F.ObserveTimingPreserves(View(), timing);
      if !haveToggle {
        haveToggle := true;
        AdoptTarget(timing);
        return;
      }
      if timing.toggle == toggle {
        return;
      }
      AdoptTarget(timing);
      ResetLongTiers();
    }

    method AdoptTarget(timing: F.Timing)
      modifies this`toggle, this`target, this`targetValid
      ensures View() == old(View()).(toggle := timing.toggle, target := timing.targetSample,
                                     targetValid := timing.targetValid)
    {
      toggle, target, targetValid := timing.toggle, timing.targetSample, timing.targetValid;
    }

    method ResetLongTiers()
      requires Exact()
      modifies this`ten, this`two, this`contaminated, this`tenList, this`twoList
      ensures Exact()
      ensures View() == old(View()).(ten := F.Tier([], true), two := F.Cascade([], true), contaminated := true)
    {
      hide BaseTier, CascadeTier;
      ClearedIsEmpty(table, true);
      ClearedCascadeIsEmpty(table, true);
      ten, two := Cleared(true), Cleared(true);
      tenList, twoList := F.Tier([], true), F.Cascade([], true);
      contaminated := true;
    }

    method AcceptSequence(input: F.Input) returns (accepted: bool)
      modifies this`lastSequence, this`expectedFirst, this`haveInput, this`discontinuity
      ensures (View(), accepted) == F.AcceptSequence(old(View()), input)
    {
      if !haveInput {
        haveInput := true;
        lastSequence, expectedFirst := input.sequence, Add64(input.firstSample, input.sampleCount);
        return true;
      }
      var delta := Distance32(input.sequence, Add32(lastSequence, 1));
      if delta < 0 {
        return false;
      }
      var sampleDelta :=
        if input.firstSample >= expectedFirst then input.firstSample - expectedFirst
        else expectedFirst - input.firstSample;
      if delta > 0 || sampleDelta > 2 {
        discontinuity := true;
      }
      lastSequence, expectedFirst := input.sequence, Add64(input.firstSample, input.sampleCount);
      accepted := true;
    }

    method ResetAll()
      requires Exact()
      modifies this`short, this`ten, this`two, this`contaminated, this`shortList, this`tenList, this`twoList
      ensures Exact() && View() == F.ResetAll(old(View()))
    {
      hide BaseTier, CascadeTier;
      ClearedIsEmpty(table, true);
      short, shortList := Cleared(true), F.Tier([], true);
      ResetLongTiers();
    }

    predicate Incompatible(t: TierAccumulator, i: F.Input) {
      t.active &&
      (t.generation != i.generation || t.sampleRate != i.sampleRate || t.nominal != i.nominal ||
       t.cycleCount != i.cycleCount || t.filterProfile != i.filterProfile)
    }

    lemma IncompatibleAgrees(t: TierAccumulator, spec: F.Tier, i: F.Input)
      requires QuarterTable(table) && BaseTier(table, t, spec)
      ensures Incompatible(t, i) <==> F.Incompatible(spec.families, i)
    {
    }

    // Everything that may clear the tiers before this input is folded.
    method PrepareTiers(input: F.Input)
      requires Exact()
      modifies this
      ensures Exact() && View() == F.Prepare(old(View()), input)
    {
      hide BaseTier, CascadeTier;
      if input.firstAfterGap {
        discontinuity := true;
      }
      if discontinuity {
        ResetAll();
        discontinuity := false;
      }
      IncompatibleAgrees(short, shortList, input);
      IncompatibleAgrees(ten, tenList, input);
      if !F.Eligible(input) {
        ResetAll();
      } else if Incompatible(short, input) || Incompatible(ten, input) {
        ResetAll();
      }
    }

    method EmitFamily(t: TierAccumulator, period: F.Period, f: Finalized, target: u64, overshoot: u32,
      contaminated: bool) returns (r: FamilyRecord)
      requires FinalizedHolds(t, f)
      ensures Emitted(t, period, f, target, overshoot, contaminated, r)
    {
      var nonZero, _, _, _ := NormalizePhase(t.phaseRe, t.phaseIm);
      var magnitudeValid := f.valid && !contaminated;
      r := FamilyRecord(period, t.contributors, f.magnitude, magnitudeValid, t.phaseRe, t.phaseIm,
                        magnitudeValid && t.angleValid && nonZero,
                        t.firstSequence, t.lastSequence, target, overshoot, contaminated, t.first);
    }

    method FoldShort(input: F.Input, accepted: bool) returns (records: seq<FamilyRecord>)
      requires Exact() && |shortList.families| < 15
      modifies this`short, this`ready, this`shortList
      ensures Exact() && View() == F.FoldShort(old(View()), input, accepted).0
      ensures RecordsAre(table, records, F.FoldShort(old(View()), input, accepted).1)
    {
      hide BaseTier, CascadeTier, RecordIs, Emitted, AccumulateBase, Cleared;
      records := [];
      AccumulateBaseHolds(table, short, shortList, input);
      short := AccumulateBase(table, short, input);
      shortList := shortList.(families := shortList.families + [input]);
      BaseTierCount(table, short, shortList);
      if short.contributors == 15 {
        var f := FinalizeValues(short);
        var r := EmitFamily(short, F.Cycles150, f, Add64(short.lastSample, 1), 0, false);
        BaseTierRecord(table, short, shortList, f, r, F.Cycles150, Add64(short.lastSample, 1), 0, false);
        if accepted {
          records := [r];
        } else {
          ready := false;
        }
        ClearedIsEmpty(table, false);
        short := Cleared(false);
        shortList := F.Tier([], false);
      }
    }

    // The two-hour fold of a closed ten-minute tier.
    method FoldTwo(source: TierAccumulator, ghost part: F.Tier, f: Finalized,
      closed: u64, overshoot: u32, accepted: bool) returns (records: seq<FamilyRecord>)
      requires Exact() && F.CascadeOpen(twoList.parts)
      requires BaseTier(table, source, part) && part.families != [] && FinalizedHolds(source, f)
      modifies this`two, this`ready, this`twoList
      ensures Exact() && View() == F.FoldTwo(old(View()), part.families, closed, overshoot, accepted).0
      ensures RecordsAre(table, records, F.FoldTwo(old(View()), part.families, closed, overshoot, accepted).1)
    {
      hide BaseTier, CascadeTier, RecordIs, Emitted, F.CascadeOpen, AccumulateFinalized, Cleared;
      records := [];
      AccumulateFinalizedHolds(table, two, twoList, source, part, f);
      two := AccumulateFinalized(two, source, f);
      twoList := twoList.(parts := twoList.parts + [part.families]);
      if two.contributors == 12 {
        var g := FinalizeValues(two);
        var r := EmitFamily(two, F.Hours2, g, closed, overshoot, false);
        CascadeRecord(table, two, twoList, g, r, closed, overshoot);
        if accepted {
          records := [r];
        } else {
          ready := false;
        }
        ClearedCascadeIsEmpty(table, false);
        two := Cleared(false);
        twoList := F.Cascade([], false);
      } else {
        ExtendedCascadeStaysOpen(table, two, twoList);
      }
    }

    method EmitTen(overshoot: u32, accepted: bool) returns (records: seq<FamilyRecord>, f: Finalized)
      requires Exact() && tenList.families != []
      modifies this`ready
      ensures FinalizedHolds(ten, f)
      ensures View() == F.EmitTen(old(View()), overshoot, accepted).0
      ensures RecordsAre(table, records, F.EmitTen(old(View()), overshoot, accepted).1)
    {
      hide BaseTier, CascadeTier, RecordIs, Emitted, FinalizedHolds;
      f := FinalizeValues(ten);
      var r := EmitFamily(ten, F.Minutes10, f, target, overshoot, contaminated);
      BaseTierRecord(table, ten, tenList, f, r, F.Minutes10, target, overshoot, contaminated);
      records := if accepted then [r] else [];
      ready := ready && accepted;
    }

    method CascadeTen(f: Finalized, overshoot: u32, accepted: bool) returns (records: seq<FamilyRecord>)
      requires Exact() && F.CascadeOpen(twoList.parts) && tenList.families != [] && FinalizedHolds(ten, f)
      modifies this`two, this`ready, this`twoList
      ensures Exact() && View() == F.CascadeTen(old(View()), overshoot, accepted).0
      ensures RecordsAre(table, records, F.CascadeTen(old(View()), overshoot, accepted).1)
    {
      hide BaseTier, CascadeTier, RecordIs, F.CascadeOpen, F.FoldTwo, FinalizedHolds;
      records := [];
      if !contaminated && ready {
        records := FoldTwo(ten, tenList, f, target, overshoot, accepted);
      }
    }

    method CloseTen(input: F.Input, sink: F.Sink) returns (records: seq<FamilyRecord>)
      requires Exact() && F.CascadeOpen(twoList.parts) && tenList.families != []
      requires tenList.families[|tenList.families| - 1] == input
      modifies this
      ensures Exact() && View() == F.CloseTen(old(View()), input, sink).0
      ensures RecordsAre(table, records, F.CloseTen(old(View()), input, sink).1)
    {
      hide BaseTier, CascadeTier, RecordIs, F.CascadeOpen, F.EmitTen, F.CascadeTen, F.NextTen, RecordsAre, FinalizedHolds;
      BaseTierEnd(table, ten, tenList);
      var endSample := Add64(ten.lastSample, 1);
      var overshoot := Min(Max(endSample - target, 0), B32 - 1);
      ghost var before := View();
      F.EmitTenKeeps(before, overshoot, sink.tenMinute);
      var emitted, f := EmitTen(overshoot, sink.tenMinute);
      ghost var middle := View();
      var more := CascadeTen(f, overshoot, sink.twoHour);
      RecordsJoin(table, emitted, F.EmitTen(before, overshoot, sink.tenMinute).1,
                  more, F.CascadeTen(middle, overshoot, sink.twoHour).1);
      records := emitted + more;
      NextTenMinutes(input);
    }

    method NextTenMinutes(input: F.Input)
      requires Exact()
      modifies this`target, this`ten, this`tenList, this`contaminated
      ensures Exact()
      ensures View() == F.NextTen(old(View()), input)
    {
      hide BaseTier, CascadeTier;
      ClearedIsEmpty(table, false);
      target := Add64(target, input.sampleRate * 600 % B64);
      ten, tenList := Cleared(false), F.Tier([], false);
      contaminated := false;
    }

    method FoldTen(input: F.Input, sink: F.Sink) returns (records: seq<FamilyRecord>)
      requires Exact() && F.CascadeOpen(twoList.parts)
      modifies this
      ensures Exact() && View() == F.FoldTen(old(View()), input, sink).0
      ensures RecordsAre(table, records, F.FoldTen(old(View()), input, sink).1)
    {
      hide BaseTier, CascadeTier, RecordIs, F.CascadeOpen, F.CloseTen;
      records := [];
      if !targetValid {
        return;
      }
      AccumulateBaseHolds(table, ten, tenList, input);
      ten := AccumulateBase(table, ten, input);
      tenList := tenList.(families := tenList.families + [input]);
      BaseTierEnd(table, ten, tenList);
      if Add64(ten.lastSample, 1) < target {
        return;
      }
      records := CloseTen(input, sink);
    }

    method Process(input: F.Input, sink: F.Sink) returns (records: seq<FamilyRecord>)
      requires Valid()
      modifies this
      ensures Valid() && View() == F.Process(old(View()), input, sink).0
      ensures RecordsAre(table, records, F.Process(old(View()), input, sink).1)
    {
      hide BaseTier, CascadeTier, RecordIs, F.Inv, F.AcceptSequence, F.Prepare, F.FoldShort, F.FoldTen;
      records := [];
      ghost var before := View();
      F.StepPreserves(before, F.Family(input, sink));
      if !ready {
        return;
      }
      F.RefusedUnchanged(before, input);
      var accepted := AcceptSequence(input);
      if !accepted {
        return;
      }
      F.PrepareReady(before, input);
      PrepareTiers(input);
      if !F.Eligible(input) {
        return;
      }
      F.FoldShortPreserves(View(), input, sink.short, before.lastSequence);
      records := FoldShort(input, sink.short);
      var more := FoldTen(input, sink);
      records := records + more;
    }
  }
}
