/** The two slots that assemble Basic blocks in place, refining BasicTier. */
module BasicAssembler {
  import opened Words
  import opened IntervalTypes
  import B = BasicTier

  type Bit = x: int | 0 <= x <= 1

  datatype Slot = Slot(
    cycles: u8, cyclesTarget: u8, nominal: u8, sampleCount: u32, firstSample: u64,
    locked: bool, fallback: bool, resynchronized: bool, stats: Stats)

  function EmptySlot(): Slot {
    Slot(0, 12, 60, 0, 0, true, false, false, Stats(0, 0, 0, 0))
  }

  // Merge one cycle into a slot; the first cycle overwrites what it held.
  function Merged(s: Slot, c: Cycle, first: bool, other: u8): Slot {
    if s.cycles == 0 then
      Slot(1, ExpectedCycles(c.nominal, other), c.nominal, c.sampleCount, c.firstSample,
           c.locked, c.fallback, first, c.stats)
    else
      s.(cycles := (s.cycles + 1) % 256,
         sampleCount := Add32(s.sampleCount, c.sampleCount),
         locked := s.locked && c.locked, fallback := s.fallback || c.fallback,
         stats := Merge(s.stats, c.stats))
  }

  ghost predicate SlotHolds(s: Slot, cycles: seq<Cycle>, resynchronized: bool, other: u8) {
    && s.cycles == |cycles|
    && (cycles != [] ==>
        && s.cyclesTarget == ExpectedCycles(cycles[0].nominal, other)
        && s.nominal == cycles[0].nominal
        && s.firstSample == cycles[0].firstSample
        && s.sampleCount == CycleSamples(cycles) % B32
        && s.locked == B.AllLocked(cycles)
        && s.fallback == B.AnyFallback(cycles)
        && s.resynchronized == resynchronized
        && s.stats == Fold(CycleStats(cycles)))
  }

  lemma EmptySlotHolds(s: Slot, other: u8)
    ensures SlotHolds(s.(cycles := 0), [], true, other)
  {
  }

  lemma HeldNominal(s: Slot, cycles: seq<Cycle>, resynchronized: bool, other: u8)
    requires SlotHolds(s, cycles, resynchronized, other)
    ensures s.cycles == |cycles| && (cycles != [] ==> s.nominal == cycles[0].nominal)
  {
  }

  lemma MergedHolds(s: Slot, cycles: seq<Cycle>, before: bool, after: bool, c: Cycle, first: bool, other: u8)
    requires SlotHolds(s, cycles, before, other) && |cycles| < 255
    requires after == if |cycles| == 0 then first else before
    ensures SlotHolds(Merged(s, c, first, other), cycles + [c], after, other)
  {
    var all := cycles + [c];
    CycleSamplesAppend(cycles, c);
    CycleStatsAppend(cycles, c);
    LockAppend(cycles, c);
    if cycles == [] {
      assert CycleSamples([]) == 0;
      assert CycleStats(all) == [c.stats];
    } else {
      FoldAppend(CycleStats(cycles), c.stats);
      assert (CycleSamples(cycles) % B32 + c.sampleCount) % B32 == CycleSamples(all) % B32;
    }
  }

  lemma LockAppend(cycles: seq<Cycle>, c: Cycle)
    ensures B.AllLocked(cycles + [c]) <==> B.AllLocked(cycles) && c.locked
    ensures B.AnyFallback(cycles + [c]) <==> B.AnyFallback(cycles) || c.fallback
  {
    var all := cycles + [c];
    assert all[|cycles|] == c;
    assert forall k :: 0 <= k < |cycles| ==> all[k] == cycles[k];
  }

  function Described(s: Slot, b: B.Settings, sequence: u32, lastSample: u64, first: bool, apply: bool): Result {
    Result(sequence, b.generation, b.sampleRate, b.dcRemove, s.nominal, s.cyclesTarget,
           s.firstSample, lastSample, s.sampleCount, s.stats, s.locked, s.fallback, first, s.resynchronized, apply)
  }

  lemma SlotDescribes(s: Slot, b: B.Basic, lastSample: u64)
    requires b.active != [] && SlotHolds(s, b.active, b.resynchronized, b.other)
    requires lastSample == b.active[|b.active| - 1].lastSample
    ensures s.cycles == |b.active| && s.cyclesTarget == B.TargetCycles(b)
    ensures B.Describe(b)
         == Described(s, b.settings, Add32(b.sequence, 1), lastSample, b.discontinuity, b.applySeen)
  {
  }

  class Assembler {
    const slots: array<Slot>
    const other: u8
    var activeSlot: Bit
    var shadowActive: bool
    var shadowSlot: Bit
    var settings: B.Settings
    var target: u64
    var targetValid: bool
    var nextResult: u32
    var nextCycle: u32
    var haveExpectation: bool
    var discontinuity: bool
    var sequence: u32
    var applySeen: bool
    // The cycles in the open block and in the live shadow.
    ghost var active: seq<Cycle>
    ghost var resynchronized: bool
    ghost var shadow: seq<Cycle>

    ghost function View(): B.Basic
      reads this
    {
      B.Basic(active, resynchronized, shadow,
            settings, target, targetValid, nextResult, nextCycle, haveExpectation,
            discontinuity, sequence, applySeen, other)
    }

    // Each slot in use holds its list; the shadow uses the other slot.
    ghost predicate Held()
      reads this, slots
    {
      && slots.Length == 2
      && SlotHolds(slots[activeSlot], active, resynchronized, other)
      && (shadowActive ==> shadowSlot == 1 - activeSlot && SlotHolds(slots[shadowSlot], shadow, true, other))
      && (!shadowActive ==> shadow == [])
    }

    ghost predicate Exact()
      reads this, slots
    {
      Held() && (shadowActive ==> shadow != [])
    }

    ghost predicate Valid()
      reads this, slots
    {
      Exact() && B.Inv(View())
    }

    constructor (other: u8)
      ensures Valid() && View() == B.Initial(other) && fresh(slots) && this.other == other
    {
      this.other := other;
      slots := new Slot[2](_ => EmptySlot());
      activeSlot, shadowActive, shadowSlot := 0, false, 1;
      settings := B.Settings(0, 32000, false, true);
      target, targetValid, nextResult, nextCycle, haveExpectation := 0, false, 0, 0, false;
      discontinuity, sequence, applySeen := true, 0, false;
      active, resynchronized, shadow := [], false, [];
    }

    method OnTarget(c: Context)
      requires Valid()
      modifies this`target, this`targetValid, this`shadowActive, this`shadow
      ensures Valid() && View() == B.OnTarget(old(View()), c)
    {
      hide B.Inv, SlotHolds;
      B.CommandsPreserve(View(), c);
      target, targetValid := c.target, c.targetValid;
      shadowActive, shadow := false, [];
    }

    method OnApply(c: Context)
      requires Valid()
      modifies this, slots
      ensures Valid() && View() == B.OnApply(old(View()), c)
    {
      hide B.Inv, SlotHolds;
      B.CommandsPreserve(View(), c);
      settings := B.Settings(c.generation, c.sampleRate, c.enable, c.dcRemove);
      applySeen, haveExpectation, discontinuity := c.apply, false, true;
      EmptySlots();
    }

    method EmptySlots()
      requires slots.Length == 2
      modifies slots, this`activeSlot, this`shadowActive, this`active, this`resynchronized, this`shadow
      ensures Exact() && active == shadow == [] && !resynchronized
    {
      activeSlot := 0;
      slots[0] := slots[0].(cycles := 0);
      slots[1] := slots[1].(cycles := 0);
      shadowActive := false;
      active, resynchronized, shadow := [], false, [];
    }

    method Discard()
      requires Exact()
      modifies slots, this`shadowActive, this`discontinuity, this`active, this`resynchronized, this`shadow
      ensures Exact() && View() == B.Discard(old(View()))
    {
      slots[activeSlot] := slots[activeSlot].(cycles := 0);
      shadowActive, discontinuity := false, true;
      active, resynchronized, shadow := [], false, [];
    }

    method IsBroken(c: Cycle) returns (broken: bool)
      requires Exact()
      ensures broken == B.Broken(View(), c)
    {
      var sequenceBreak := haveExpectation && (c.sequence != nextResult || c.cycleSequence != nextCycle);
      var open := slots[activeSlot];
      var nominalChange := open.cycles != 0 && c.nominal != open.nominal;
      broken := c.gap || sequenceBreak || nominalChange;
    }

    method Expect(c: Cycle)
      requires Exact()
      modifies this`nextResult, this`nextCycle, this`haveExpectation
      ensures Exact()
      ensures View() == old(View()).(nextResult := Add32(c.sequence, 1), nextCycle := Add32(c.cycleSequence, 1),
                                     haveExpectation := true)
    {
      hide SlotHolds;
      nextResult, nextCycle, haveExpectation := Add32(c.sequence, 1), Add32(c.cycleSequence, 1), true;
    }

    method Admit(c: Cycle)
      requires Exact()
      modifies slots, this`shadowActive, this`discontinuity, this`active, this`resynchronized, this`shadow,
               this`nextResult, this`nextCycle, this`haveExpectation
      ensures Exact() && View() == B.Admit(old(View()), c)
    {
      hide SlotHolds, B.Broken;
      var broken := IsBroken(c);
      if broken {
        Discard();
      }
      Expect(c);
    }

    // A block is restarted in the other slot, beside the one still in progress.
    method StartShadow()
      requires Exact()
      modifies slots, this`shadowActive, this`shadowSlot, this`shadow
      ensures Held() && shadowActive && View() == old(View()).(shadow := [])
    {
      EmptySlotHolds(slots[1 - activeSlot], other);
      hide SlotHolds;
      shadowSlot := 1 - activeSlot;
      slots[shadowSlot] := slots[shadowSlot].(cycles := 0);
      shadowActive, shadow := true, [];
    }

    method SkipMarks(firstSample: u64)
      requires target <= firstSample
      modifies this`target, this`targetValid
      ensures var next := B.NextTarget(old(target), settings.sampleRate, firstSample);
              target == next.0 && targetValid == (old(targetValid) && next.1)
    {
      var interval: nat := settings.sampleRate * 600;
      if interval == 0 {
        targetValid := false;
      } else {
        target := (target + ((firstSample - target) / interval + 1) * interval) % B64;
      }
    }

    // Passing a UTC mark restarts the block grid.
    method PassMark(c: Cycle) returns (primary: bool, restarted: bool)
      requires Exact()
      modifies slots, this`shadowActive, this`shadowSlot, this`shadow, this`target, this`targetValid
      ensures Held()
      ensures primary <==> B.Crosses(old(View()), c) && active == []
      ensures restarted <==> B.Crosses(old(View()), c) && active != []
      ensures restarted <==> shadowActive && shadow == []
      ensures View() == B.Advance(old(View()), c).(shadow := if restarted then [] else old(shadow))
    {
      hide SlotHolds, B.NextTarget;
      primary, restarted := false, false;
      HeldNominal(slots[activeSlot], active, resynchronized, other);
      if targetValid && c.firstSample >= target {
        if slots[activeSlot].cycles == 0 {
          primary := true;
        } else {
          restarted := true;
          StartShadow();
        }
        SkipMarks(c.firstSample);
      }
    }

    method JoinShadow(c: Cycle, restarted: bool)
      requires Held() && |shadow| < 255 && (shadow == [] ==> restarted) && shadowActive
      modifies slots, this`shadow
      ensures Exact() && View() == old(View()).(shadow := old(shadow) + [c])
    {
      MergedHolds(slots[shadowSlot], shadow, true, true, c, restarted, other);
      hide SlotHolds, Merged;
      slots[shadowSlot] := Merged(slots[shadowSlot], c, restarted, other);
      shadow := shadow + [c];
    }

    method JoinActive(c: Cycle, primary: bool)
      requires Held() && |active| < 255
      modifies slots, this`active, this`resynchronized
      ensures Held()
      ensures active == old(active) + [c]
      ensures resynchronized == if |old(active)| == 0 then primary else old(resynchronized)
    {
      ghost var after := if |active| == 0 then primary else resynchronized;
      hide SlotHolds, Merged;
      MergedHolds(slots[activeSlot], active, resynchronized, after, c, primary, other);
      slots[activeSlot] := Merged(slots[activeSlot], c, primary, other);
      resynchronized := after;
      active := active + [c];
    }

    method Join(c: Cycle)
      requires Exact() && |active| < 255 && |shadow| < 255
      modifies slots, this`active, this`resynchronized, this`shadowActive, this`shadowSlot, this`shadow,
               this`target, this`targetValid
      ensures Exact() && View() == B.Join(old(View()), c)
    {
      hide SlotHolds, B.Advance, B.Crosses;
      B.AdvanceKeeps(View(), c);
      var primary, restarted := PassMark(c);
      JoinActive(c, primary);
      if shadowActive {
        JoinShadow(c, restarted);
      }
    }

    // A live shadow's slot becomes the open one.
    method Promote()
      requires Exact()
      modifies slots, this`activeSlot, this`shadowActive, this`active, this`resynchronized, this`shadow
      ensures Exact() && active == old(shadow) && resynchronized == (old(shadow) != []) && shadow == []
    {
      EmptySlotHolds(slots[activeSlot], other);
      hide SlotHolds;
      slots[activeSlot] := slots[activeSlot].(cycles := 0);
      if shadowActive {
        activeSlot, shadowActive := shadowSlot, false;
      }
      active, resynchronized, shadow := shadow, shadow != [], [];
    }

    method Close(lastSample: u64) returns (result: Option<Result>)
      requires Exact() && active != [] && active[|active| - 1].lastSample == lastSample
      modifies slots, this`activeSlot, this`shadowActive, this`discontinuity, this`sequence,
               this`active, this`resynchronized, this`shadow
      ensures Exact() && View() == B.Close(old(View())).0
      ensures result.None? <==> B.Close(old(View())).1.None?
      ensures result.Some? ==> result.value == B.Close(old(View())).1.value.result
    {
      SlotDescribes(slots[activeSlot], View(), lastSample);
      hide SlotHolds, B.Describe, B.TargetCycles;
      var open := slots[activeSlot];
      if open.cycles < open.cyclesTarget {
        return None;
      }
      result := Some(Described(open, settings, Add32(sequence, 1), lastSample, discontinuity, applySeen));
      sequence, discontinuity := Add32(sequence, 1), false;
      Promote();
    }

    method Accept(c: Cycle) returns (result: Option<Result>)
      requires Valid()
      modifies this, slots
      ensures Valid() && View() == B.Accept(old(View()), c).0
      ensures result.None? <==> B.Accept(old(View()), c).1.None?
      ensures result.Some? ==> result.value == B.Accept(old(View()), c).1.value.result
    {
      hide SlotHolds, B.Inv, B.Discard, B.Close, B.Admit, B.Join;
      ghost var before := View();
      B.AcceptPreserves(before, c);
      if !settings.enable {
        return None;
      }
      if c.generation != settings.generation {
        Discard();
        haveExpectation := false;
        return None;
      }
      B.BlocksAreShort(before, c);
      Admit(c);
      Join(c);
      result := Close(c.lastSample);
    }
  }
}
