/** The two accumulator slots of the 150/180-cycle tier, refining AggregateTier. */
module AggregateAssembler {
  import opened Words
  import opened IntervalTypes
  import A = AggregateTier

  type Bit = x: int | 0 <= x <= 1
  type u5 = x: int | 0 <= x < 32

  datatype Slot = Slot(
    blocks: u5, generation: u32, nominal: u8, sampleRate: u32, dcRemove: bool,
    firstSample: u64, lastSample: u64, firstSequence: u32, lastSequence: u32,
    totalSamples: u32, totalCycles: u16, nextSequence: u32, nextFirst: u64, stats: Stats)

  function EmptySlot(): Slot {
    Slot(0, 0, 0, 0, true, 0, 0, 0, 0, 0, 0, 0, 0, Stats(0, 0, 0, 0))
  }

  // Merge one Basic result; a seeding result overwrites what the slot held.
  function Merged(s: Slot, r: Result, seed: bool): Slot {
    var base :=
      if seed then
        s.(generation := r.generation, nominal := r.nominal, sampleRate := r.sampleRate, dcRemove := r.dcRemove,
           firstSample := r.firstSample, firstSequence := r.sequence,
           totalSamples := r.sampleCount, totalCycles := r.cycleCount, blocks := 1, stats := r.stats)
      else
        s.(totalSamples := Add32(s.totalSamples, r.sampleCount),
           totalCycles := (s.totalCycles + r.cycleCount) % B16,
           blocks := (s.blocks + 1) % 32, stats := Merge(s.stats, r.stats));
    base.(lastSample := r.lastSample, lastSequence := r.sequence,
          nextSequence := Add32(r.sequence, 1), nextFirst := NextFirst(r))
  }

  ghost predicate Head(s: Slot, r: Result) {
    && s.generation == r.generation && s.nominal == r.nominal && s.sampleRate == r.sampleRate
    && s.dcRemove == r.dcRemove && s.firstSample == r.firstSample && s.firstSequence == r.sequence
  }

  ghost predicate Tail(s: Slot, r: Result) {
    && s.lastSample == r.lastSample && s.lastSequence == r.sequence
    && s.nextSequence == Add32(r.sequence, 1) && s.nextFirst == NextFirst(r)
  }

  ghost predicate Totals(samples: u32, cycles: u16, stats: Stats, blocks: seq<Block>)
    requires blocks != []
  {
    && samples == Samples(blocks) % B32
    && cycles == TotalCycles(blocks)
    && stats == Fold(BlockStats(blocks))
  }

  ghost predicate SlotHolds(s: Slot, blocks: seq<Block>) {
    && s.blocks == |blocks|
    && (blocks != [] ==>
        && Head(s, blocks[0].result)
        && Tail(s, blocks[|blocks| - 1].result)
        && Totals(s.totalSamples, s.totalCycles, s.stats, blocks))
  }

  lemma EmptySlotHolds(s: Slot)
    ensures SlotHolds(s.(blocks := 0), [])
  {
  }

  lemma {:induction false} FewCycles(blocks: seq<Block>)
    ensures TotalCycles(blocks) <= 255 * |blocks|
  {
    if blocks != [] { FewCycles(blocks[..|blocks| - 1]); }
  }

  lemma TotalsExtend(samples: u32, cycles: u16, stats: Stats, blocks: seq<Block>, b: Block)
    requires blocks != [] && |blocks| < A.BLOCKS && Totals(samples, cycles, stats, blocks)
    ensures Totals(Add32(samples, b.result.sampleCount), (cycles + b.result.cycleCount) % B16,
                   Merge(stats, b.result.stats), blocks + [b])
  {
    SamplesAppend(blocks, b);
    BlockStatsAppend(blocks, b);
    FoldAppend(BlockStats(blocks), b.result.stats);
    FewCycles(blocks + [b]);
    assert (Samples(blocks) % B32 + b.result.sampleCount) % B32 == Samples(blocks + [b]) % B32;
  }

  lemma SeedHolds(s: Slot, b: Block)
    ensures SlotHolds(Merged(s, b.result, true), [b])
  {
    OneBlock(b);
    hide Samples, TotalCycles, Fold, BlockStats;
  }

  lemma ExtendHolds(s: Slot, blocks: seq<Block>, b: Block)
    requires SlotHolds(s, blocks) && blocks != [] && |blocks| < A.BLOCKS
    ensures SlotHolds(Merged(s, b.result, false), blocks + [b])
  {
    TotalsExtend(s.totalSamples, s.totalCycles, s.stats, blocks, b);
    hide Totals;
  }

  // Whether the open slot refuses to be continued by this result.
  predicate Breaks(s: Slot, r: Result) {
    s.blocks != 0 &&
    (r.generation != s.generation || r.nominal != s.nominal || r.sampleRate != s.sampleRate ||
     r.dcRemove != s.dcRemove || r.sequence != s.nextSequence ||
     (r.firstSample != s.nextFirst &&
      !(r.resynchronized && r.firstSample <= s.lastSample && r.lastSample > s.lastSample)))
  }

  lemma BreaksAgrees(s: Slot, active: seq<Block>, r: Result)
    requires SlotHolds(s, active)
    ensures Breaks(s, r) <==> A.Breaks(active, r)
    ensures s.blocks == |active|
  {
  }

  lemma BlocksHeld(s: Slot, blocks: seq<Block>)
    requires SlotHolds(s, blocks)
    ensures s.blocks == |blocks|
  {
  }

  lemma HeldQuad(s: Slot, blocks: seq<Block>, number: u32)
    requires SlotHolds(s, blocks) && blocks != []
    ensures QuadOf(number, blocks) == Quad(number, s.generation, s.nominal, s.sampleRate, s.dcRemove,
      s.firstSample, s.lastSample, s.firstSequence, s.lastSequence, s.totalSamples, s.totalCycles, s.stats)
  {
  }

  class Assembler {
    const slots: array<Slot>
    var activeSlot: Bit
    var shadowActive: bool
    var shadowSlot: Bit
    var finalizeSlot: Bit
    var applySeen: bool
    var sequence: u32
    // The blocks in the open slot, the live shadow and the closed slot.
    ghost var active: seq<Block>
    ghost var shadow: seq<Block>
    ghost var closed: seq<Block>

    ghost function View(): A.Aggregate
      reads this
    {
      A.Aggregate(active, shadow, closed, applySeen, sequence)
    }

    // A closed slot keeps its contents until it is finalised. Nothing joins
    // any slot meanwhile, so the open slot may still be the closed one.
    ghost predicate Exact()
      reads this, slots
    {
      && slots.Length == 2
      && (if closed != [] && activeSlot == finalizeSlot then active == []
          else SlotHolds(slots[activeSlot], active))
      && (shadowActive <==> shadow != [])
      && (shadowActive ==> shadowSlot == 1 - activeSlot && SlotHolds(slots[shadowSlot], shadow))
      && (closed != [] ==> SlotHolds(slots[finalizeSlot], closed))
    }

    ghost predicate Valid()
      reads this, slots
    {
      Exact() && A.Inv(View())
    }

    constructor ()
      ensures Valid() && View() == A.Initial() && fresh(slots)
    {
      slots := new Slot[2](_ => EmptySlot());
      activeSlot, shadowActive, shadowSlot, finalizeSlot := 0, false, 1, 0;
      applySeen, sequence := false, 0;
      active, shadow, closed := [], [], [];
    }

    method OnTarget()
      requires Valid() && closed == []
      modifies slots, this`shadowActive, this`shadow
      ensures Valid() && View() == A.OnTarget(old(View()))
    {
      hide SlotHolds, A.Inv;
      A.OthersPreserve(View());
      if shadowActive {
        slots[shadowSlot] := slots[shadowSlot].(blocks := 0);
        shadowActive := false;
      }
      shadow := [];
    }

    method Clear()
      requires Exact() && closed == []
      modifies slots, this`shadowActive, this`active, this`shadow
      ensures Exact() && active == shadow == []
    {
      EmptySlotHolds(slots[activeSlot]);
      hide SlotHolds;
      slots[0] := slots[0].(blocks := 0);
      slots[1] := slots[1].(blocks := 0);
      shadowActive := false;
      active, shadow := [], [];
    }

    method Observe(apply: bool)
      requires Exact() && closed == []
      modifies slots, this`shadowActive, this`active, this`shadow, this`applySeen
      ensures Exact() && View() == A.Observe(old(View()), apply)
    {
      hide SlotHolds;
      if apply != applySeen {
        applySeen := apply;
        Clear();
      }
    }

    method Restart(r: Result)
      requires Exact() && closed == []
      modifies slots, this`shadowActive, this`active, this`shadow
      ensures Exact() && View() == A.Restart(old(View()), r)
    {
      BreaksAgrees(slots[activeSlot], active, r);
      hide SlotHolds, Breaks, A.Breaks;
      if Breaks(slots[activeSlot], r) {
        Clear();
      }
    }

    method StartShadow(r: Result, ghost b: Block)
      requires Exact() && closed == [] && b.result == r
      modifies slots, this`shadowActive, this`shadowSlot, this`shadow
      ensures Exact() && shadow == [b]
    {
      SeedHolds(slots[1 - activeSlot], b);
      hide SlotHolds, Merged;
      shadowSlot, shadowActive := 1 - activeSlot, true;
      slots[shadowSlot] := Merged(slots[shadowSlot], r, true);
      shadow := [b];
    }

    method ExtendShadow(r: Result, ghost b: Block)
      requires Exact() && closed == [] && shadowActive && |shadow| < A.BLOCKS && b.result == r
      modifies slots, this`shadow
      ensures Exact() && shadow == old(shadow) + [b]
    {
      ExtendHolds(slots[shadowSlot], shadow, b);
      hide SlotHolds, Merged;
      slots[shadowSlot] := Merged(slots[shadowSlot], r, false);
      shadow := shadow + [b];
    }

    method JoinActive(r: Result, ghost b: Block) returns (seed: bool)
      requires Exact() && closed == [] && |active| < A.BLOCKS && b.result == r
      modifies slots, this`active
      ensures Exact() && active == old(active) + [b] && (seed <==> old(active) == [])
    {
      BreaksAgrees(slots[activeSlot], active, r);
      seed := slots[activeSlot].blocks == 0;
      if seed { SeedHolds(slots[activeSlot], b); } else { ExtendHolds(slots[activeSlot], active, b); }
      hide SlotHolds, Merged;
      slots[activeSlot] := Merged(slots[activeSlot], r, seed);
      active := active + [b];
    }

    // The result joins the open interval; at a UTC mark it also restarts the
    // shadow, and a live shadow is extended with it.
    method Join(r: Result, ghost b: Block)
      requires Exact() && closed == [] && |active| < A.BLOCKS && |shadow| < A.BLOCKS && b.result == r
      modifies slots, this`shadowActive, this`shadowSlot, this`shadow, this`active
      ensures Exact() && View() == A.Join(old(View()), b)
    {
      hide SlotHolds;
      var seed := JoinActive(r, b);
      if r.resynchronized && !seed {
        StartShadow(r, b);
      } else if shadowActive {
        ExtendShadow(r, b);
      }
    }

    // The fifteenth block closes the interval; a live shadow's slot is promoted.
    method Close() returns (armed: bool)
      requires Exact() && closed == [] && active != []
      modifies this`finalizeSlot, this`activeSlot, this`shadowActive, this`active, this`shadow, this`closed
      ensures Exact() && View() == A.Close(old(View()))
      ensures armed <==> closed != []
    {
      BlocksHeld(slots[activeSlot], active);
      hide SlotHolds;
      if slots[activeSlot].blocks != 15 {
        return false;
      }
      finalizeSlot := activeSlot;
      closed, active, shadow := active, shadow, [];
      if shadowActive {
        activeSlot, shadowActive := shadowSlot, false;
      }
      armed := true;
    }

    method Fold(r: Result, ghost b: Block) returns (armed: bool)
      requires Valid() && closed == [] && b.result == r
      modifies this, slots
      ensures Valid() && View() == A.Fold(old(View()), b)
      ensures armed <==> closed != []
    {
      hide SlotHolds, A.Inv, A.Observe, A.Restart, A.Join, A.Close;
      A.FoldPreserves(View(), b);
      A.FoldIsBounded(View(), b);
      Observe(r.apply);
      if !Eligible(r) {
        Clear();
        return false;
      }
      Restart(r);
      Join(r, b);
      armed := Close();
    }

    // The deferred pass publishes the closed slot and empties it.
    method Finalise() returns (quad: Quad)
      requires Valid() && closed != []
      modifies slots, this`sequence, this`closed
      ensures Valid() && View() == A.Finalise(old(View()))
      ensures quad == QuadOf(sequence, old(closed))
    {
      A.OthersPreserve(View());
      var s := slots[finalizeSlot];
      HeldQuad(s, closed, Add32(sequence, 1));
      EmptySlotHolds(s);
      hide SlotHolds, A.Inv;
      sequence := Add32(sequence, 1);
      slots[finalizeSlot] := s.(blocks := 0);
      quad := Quad(sequence, s.generation, s.nominal, s.sampleRate, s.dcRemove, s.firstSample, s.lastSample,
                   s.firstSequence, s.lastSequence, s.totalSamples, s.totalCycles, s.stats);
      closed := [];
    }
  }
}
