/** The accumulators of the ten-minute and two-hour tiers, refining LongTiers. */
module LongAssemblers {
  import opened Words
  import opened IntervalTypes
  import L = LongTiers

  // Fields shared by both accumulators. The sequences are Basic numbers in the
  // ten-minute tier and ten-minute numbers in the two-hour tier.
  datatype Accumulator = Accumulator(
    generation: u32, nominal: u8, sampleRate: u32, dcRemove: bool,
    firstSample: u64, lastSample: u64, firstSequence: u32, lastSequence: u32,
    totalSamples: u32, totalCycles: u32, nextSequence: u32, nextFirst: u64, stats: Stats)

  function Blank(): Accumulator {
    Accumulator(0, 0, 0, true, 0, 0, 0, 0, 0, 0, 0, 0, Stats(0, 0, 0, 0))
  }

  function ToQuad(a: Accumulator, number: u32): Quad {
    Quad(number, a.generation, a.nominal, a.sampleRate, a.dcRemove, a.firstSample, a.lastSample,
         a.firstSequence, a.lastSequence, a.totalSamples, a.totalCycles, a.stats)
  }

  function AsQuad(r: Result): Quad {
    Quad(r.sequence, r.generation, r.nominal, r.sampleRate, r.dcRemove, r.firstSample, r.lastSample,
         r.sequence, r.sequence, r.sampleCount, r.cycleCount, r.stats)
  }

  predicate Matches(a: Accumulator, q: Quad) {
    q.generation == a.generation && q.nominal == a.nominal && q.sampleRate == a.sampleRate &&
    q.dcRemove == a.dcRemove && q.number == a.nextSequence && q.firstSample == a.nextFirst
  }

  // Merge one contribution, numbered `q.number`; a seed overwrites.
  function Merged(a: Accumulator, q: Quad, seed: bool): Accumulator {
    var base :=
      if seed then
        a.(generation := q.generation, nominal := q.nominal, sampleRate := q.sampleRate, dcRemove := q.dcRemove,
           firstSample := q.firstSample, firstSequence := q.number,
           totalSamples := q.totalSamples, totalCycles := q.totalCycles, stats := q.stats)
      else
        a.(totalSamples := Add32(a.totalSamples, q.totalSamples),
           totalCycles := Add32(a.totalCycles, q.totalCycles), stats := Merge(a.stats, q.stats));
    base.(lastSample := q.lastSample, lastSequence := q.number,
          nextSequence := Add32(q.number, 1), nextFirst := Add64(q.firstSample, q.totalSamples))
  }

  ghost predicate Totals(samples: u32, cycles: u32, stats: Stats, blocks: seq<Block>)
    requires blocks != []
  {
    && samples == Samples(blocks) % B32
    && cycles == TotalCycles(blocks) % B32
    && stats == Fold(BlockStats(blocks))
  }

  ghost predicate Holds(a: Accumulator, blocks: seq<Block>) {
    blocks != [] ==>
      && ToQuad(a, 0) == QuadOf(0, blocks)
      && a.nextSequence == Add32(blocks[|blocks| - 1].result.sequence, 1)
      && a.nextFirst == NextFirst(blocks[|blocks| - 1].result)
  }

  lemma TotalsJoin(samples: u32, cycles: u32, stats: Stats, blocks: seq<Block>,
    moreSamples: u32, moreCycles: u32, moreStats: Stats, more: seq<Block>)
    requires blocks != [] && Totals(samples, cycles, stats, blocks)
    requires more != [] && Totals(moreSamples, moreCycles, moreStats, more)
    ensures Totals(Add32(samples, moreSamples), Add32(cycles, moreCycles), Merge(stats, moreStats), blocks + more)
  {
    SamplesConcat(blocks, more);
    BlockStatsConcat(blocks, more);
    FoldConcat(BlockStats(blocks), BlockStats(more));
    ModAdd(Samples(blocks), Samples(more), B32);
    ModAdd(TotalCycles(blocks), TotalCycles(more), B32);
  }

  lemma SeedHolds(a: Accumulator, b: Block)
    ensures Holds(Merged(a, AsQuad(b.result), true), [b])
  {
    OneBlock(b);
  }

  lemma ExtendHolds(a: Accumulator, blocks: seq<Block>, b: Block)
    requires Holds(a, blocks) && blocks != []
    ensures Holds(Merged(a, AsQuad(b.result), false), blocks + [b])
  {
    OneBlock(b);
    TotalsJoin(a.totalSamples, a.totalCycles, a.stats, blocks,
               b.result.sampleCount, b.result.cycleCount, b.result.stats, [b]);
    hide Samples, TotalCycles, Fold, BlockStats, Merge;
  }

  lemma MatchesAgrees(a: Accumulator, blocks: seq<Block>, r: Result)
    requires Holds(a, blocks) && blocks != []
    ensures Matches(a, AsQuad(r)) <==>
            SameConfiguration(blocks[0].result, r) && L.Continues(blocks[|blocks| - 1].result, r)
  {
  }

  class TenMinuteAssembler {
    var blocks: u16
    var held: Accumulator
    var target: u64
    var targetValid: bool
    var contaminated: bool
    var updateSeen: bool
    var closedTarget: u64
    var overshoot: u32
    var sequence: u32
    // The blocks in the accumulator and all Basic results since the previous
    // interval.
    ghost var list: seq<Block>
    ghost var since: seq<Block>
    ghost var previous: u32

    ghost function View(): L.TenMinute
      reads this
    {
      L.TenMinute(list, since, previous, target, targetValid, contaminated, updateSeen,
                  closedTarget, overshoot, sequence)
    }

    ghost predicate Exact()
      reads this
    {
      blocks == |list| % B16 && Holds(held, list)
    }

    constructor ()
      ensures Exact() && View() == L.InitialTen()
    {
      blocks, held := 0, Blank();
      target, targetValid, contaminated, updateSeen := 0, false, true, false;
      closedTarget, overshoot, sequence := 0, 0, 0;
      list, since, previous := [], [], 0;
    }

    method OnTarget(c: Context)
      requires Exact()
      modifies this
      ensures Exact() && View() == L.OnTarget(old(View()), c)
    {
      updateSeen := c.targetUpdate;
      target, targetValid := c.target, c.targetValid;
      contaminated := true;
      blocks, list := 0, [];
    }

    method Reject()
      requires Exact()
      modifies this`blocks, this`contaminated, this`list
      ensures Exact() && list == [] && contaminated
    {
      blocks, list, contaminated := 0, [], true;
    }

    method Gather(r: Result, ghost b: Block)
      requires Exact() && b.result == r && |list| <= B16
      modifies this`blocks, this`contaminated, this`list, this`held
      ensures Exact() && View() == L.Gather(old(View()), b)
    {
      if !targetValid || !Eligible(r) {
        Reject();
        return;
      }
      if list != [] { MatchesAgrees(held, list, r); }
      hide Holds, Eligible, Matches, SameConfiguration, L.Continues;
      var seed := blocks == 0;
      if !seed && !Matches(held, AsQuad(r)) {
        contaminated, seed := true, true;
      }
      Take(r, seed, b);
    }

    method Take(r: Result, seed: bool, ghost b: Block)
      requires Exact() && b.result == r && (!seed ==> list != [])
      modifies this`blocks, this`list, this`held
      ensures Exact() && list == if seed then [b] else old(list) + [b]
    {
      ghost var after := if seed then [b] else list + [b];
      if seed { SeedHolds(held, b); } else { ExtendHolds(held, list, b); }
      hide Holds, Merged;
      assert Holds(Merged(held, AsQuad(r), seed), after);
      held := Merged(held, AsQuad(r), seed);
      blocks := if seed then 1 else (blocks + 1) % B16;
      list := after;
    }

    // The first block to end at or after the target closes the interval.
    method Arm(r: Result) returns (armed: bool)
      modifies this`closedTarget, this`overshoot, this`target
      ensures View() == L.Arm(old(View()), r) && armed == L.Reaches(old(View()), r)
    {
      hide Eligible;
      armed := targetValid && Eligible(r) && r.lastSample >= target;
      if armed {
        closedTarget, overshoot := target, Min(r.lastSample - target, B32 - 1);
        target := Add64(target, r.sampleRate * 600);
      }
    }

    method Fold(r: Result, ghost b: Block) returns (armed: bool)
      requires Exact() && b.result == r && |list| <= B16
      modifies this
      ensures Exact() && View() == L.FoldTen(old(View()), b) && armed == L.Reaches(old(View()), r)
    {
      hide Holds, L.Gather, L.Arm, L.Reaches;
      L.GatherFields(View(), b);
      Gather(r, b);
      armed := Arm(r);
      since := since + [b];
    }

    // The deferred pass publishes the interval and opens the next one.
    method Finalise() returns (quad: Quad, aligned: bool, count: u16)
      requires Exact() && list != []
      modifies this
      ensures Exact() && View() == L.FinaliseTen(old(View()))
      ensures quad == QuadOf(old(L.IntervalOf(View())).number, old(list))
      ensures aligned == L.Aligned(old(L.IntervalOf(View())))
      ensures count == |old(list)| % B16
    {
      sequence := Add32(sequence, 1);
      quad := ToQuad(held, sequence);
      aligned, count := targetValid && !contaminated, blocks;
      blocks, contaminated := 0, false;
      previous := (previous + |since|) % B32;
      list, since := [], [];
    }
  }

  // ---- The two-hour accumulator ---------------------------------------------

  // The two-hour record of the intervals `parts`.
  ghost function TwoHourQuad(number: u32, parts: seq<L.Interval>): Quad
    requires parts != [] && L.AllBlocks(parts) != []
  {
    var first, last := parts[0], parts[|parts| - 1];
    QuadOf(number, L.AllBlocks(parts)).(firstSequence := first.number, lastSequence := last.number)
  }

  ghost predicate CascadeHolds(a: Accumulator, parts: seq<L.Interval>) {
    parts != [] ==>
      && L.AllBlocks(parts) != []
      && ToQuad(a, 0) == TwoHourQuad(0, parts)
      && a.nextSequence == Add32(parts[|parts| - 1].number, 1)
      && parts[|parts| - 1].blocks != []
      && a.nextFirst == Add64(parts[|parts| - 1].blocks[0].result.firstSample,
                              Samples(parts[|parts| - 1].blocks) % B32)
  }

  lemma AllBlocksOne(i: L.Interval)
    ensures L.AllBlocks([i]) == i.blocks
  {
    assert L.AllBlocks([]) == [] && [] + i.blocks == i.blocks;
  }

  lemma CascadeSeeds(a: Accumulator, i: L.Interval)
    requires i.blocks != []
    ensures CascadeHolds(Merged(a, QuadOf(i.number, i.blocks), true), [i])
  {
    AllBlocksOne(i);
    hide Samples, TotalCycles, Fold, BlockStats, L.AllBlocks;
  }

  lemma CascadeExtends(a: Accumulator, parts: seq<L.Interval>, i: L.Interval)
    requires CascadeHolds(a, parts) && parts != [] && i.blocks != []
    ensures CascadeHolds(Merged(a, QuadOf(i.number, i.blocks), false), parts + [i])
  {
    var all, q := L.AllBlocks(parts), QuadOf(i.number, i.blocks);
    L.AllBlocksAppend(parts, i);
    TotalsJoin(a.totalSamples, a.totalCycles, a.stats, all, q.totalSamples, q.totalCycles, q.stats, i.blocks);
    hide Samples, TotalCycles, Fold, BlockStats, Merge, L.AllBlocks;
  }

  lemma CascadeMatches(a: Accumulator, w: L.TwoHour, i: L.Interval)
    requires CascadeHolds(a, w.parts) && w.parts != [] && i.blocks != []
    requires L.InvTwo(w, i.previous)
    ensures Matches(a, QuadOf(i.number, i.blocks)) <==> L.Abuts(w.parts[|w.parts| - 1], i)
  {
    L.OneConfigurationOfParts(w.parts);
    hide Samples, TotalCycles, Fold, BlockStats, L.AllBlocks, L.SoundInterval;
  }

  class TwoHourAssembler {
    var intervals: nat
    var held: Accumulator
    var sequence: u32
    // The ten-minute intervals in the accumulator.
    ghost var parts: seq<L.Interval>

    ghost function View(): L.TwoHour
      reads this
    {
      L.TwoHour(parts, sequence)
    }

    ghost predicate Exact()
      reads this
    {
      intervals == |parts| && CascadeHolds(held, parts)
    }

    constructor ()
      ensures Exact() && View() == L.InitialTwo()
    {
      intervals, held, sequence, parts := 0, Blank(), 0, [];
    }

    method Drop()
      modifies this`intervals, this`parts
      ensures Exact() && View() == L.Drop(old(View()))
    {
      intervals, parts := 0, [];
    }

    // Fold the accumulator behind one closed ten-minute record.
    method Fold(q: Quad, aligned: bool, count: u16, ghost i: L.Interval) returns (armed: bool)
      requires Exact() && L.InvTwo(View(), i.previous) && |parts| < L.INTERVALS
      requires i.blocks != [] && q == QuadOf(i.number, i.blocks)
      requires aligned == L.Aligned(i) && count == |i.blocks| % B16
      modifies this
      ensures Exact() && View() == L.FoldTwo(old(View()), i)
      ensures armed <==> |parts| == L.INTERVALS
    {
      hide L.InvTwo, CascadeHolds, L.Abuts, Matches, L.Chained, L.Usable;
      var eligible := aligned && count != 0 && (q.nominal == 50 || q.nominal == 60);
      assert eligible == L.Cascades(i);
      if !eligible {
        Drop();
        return false;
      }
      if parts != [] { CascadeMatches(held, View(), i); }
      hide QuadOf, L.Cascades;
      var seed := intervals == 0 || !Matches(held, q);
      Take(q, seed, i);
      armed := intervals == 12;
    }

    method Take(q: Quad, seed: bool, ghost i: L.Interval)
      requires Exact() && i.blocks != [] && q == QuadOf(i.number, i.blocks) && (!seed ==> parts != [])
      modifies this`intervals, this`held, this`parts
      ensures Exact() && parts == if seed then [i] else old(parts) + [i]
    {
      if seed { CascadeSeeds(held, i); } else { CascadeExtends(held, parts, i); }
      hide CascadeHolds, Merged, QuadOf;
      held := Merged(held, q, seed);
      intervals := if seed then 1 else intervals + 1;
      parts := if seed then [i] else parts + [i];
    }

    // The deferred pass publishes the two-hour record and empties the tier.
    method Finalise() returns (quad: Quad)
      requires Exact() && parts != []
      modifies this
      ensures Exact() && View() == L.FinaliseTwo(old(View()))
      ensures L.AllBlocks(old(parts)) != [] && quad == TwoHourQuad(sequence, old(parts))
    {
      sequence := Add32(sequence, 1);
      quad := ToQuad(held, sequence);
      intervals, parts := 0, [];
    }
  }
}
