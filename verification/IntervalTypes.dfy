/** Cycles, Basic results and the merge-safe statistics the interval tiers fold. */
module IntervalTypes {
  import opened Words

  type u128 = x: int | 0 <= x < B128

  // One measurement lane. The linear sum wraps as a 128-bit register does, the
  // sum of squares saturates.
  datatype Stats = Stats(sum: u128, square: u128, minimum: i64, maximum: i64)

  function Merge(a: Stats, b: Stats): Stats {
    Stats((a.sum + b.sum) % B128,
          Min(a.square + b.square, B128 - 1),
          Min(a.minimum, b.minimum),
          Max(a.maximum, b.maximum))
  }

  lemma MergeAssociative(a: Stats, b: Stats, c: Stats)
    ensures Merge(Merge(a, b), c) == Merge(a, Merge(b, c))
  {
    WrapAssociative(a.sum, b.sum, c.sum);
  }

  lemma WrapAssociative(x: u128, y: u128, z: u128)
    ensures ((x + y) % B128 + z) % B128 == (x + (y + z) % B128) % B128
  {
    ModAdd(x + y, z, B128);
    ModAdd(y + z, x, B128);
  }

  // The flat fold of a non-empty list.
  function Fold(s: seq<Stats>): Stats
    requires s != []
  {
    if |s| == 1 then s[0] else Merge(Fold(s[..|s| - 1]), s[|s| - 1])
  }

  lemma FoldAppend(s: seq<Stats>, x: Stats)
    requires s != []
    ensures Fold(s + [x]) == Merge(Fold(s), x)
  {
    assert (s + [x])[..|s|] == s;
  }

  // Folding two folds is folding all the contributions at once.
  lemma {:induction false} FoldConcat(s: seq<Stats>, t: seq<Stats>)
    requires s != [] && t != []
    ensures Fold(s + t) == Merge(Fold(s), Fold(t))
  {
    if |t| == 1 {
      FoldAppend(s, t[0]);
      assert s + t == s + [t[0]];
    } else {
      var init, last := t[..|t| - 1], t[|t| - 1];
      FoldConcat(s, init);
      assert s + t == (s + init) + [last];
      FoldAppend(s + init, last);
      MergeAssociative(Fold(s), Fold(init), last);
    }
  }

  // One whole grid cycle with the lock context captured beside it.
  datatype Cycle = Cycle(
    sequence: u32, cycleSequence: u32, generation: u32, nominal: u8,
    firstSample: u64, lastSample: u64, sampleCount: u32,
    gap: bool, locked: bool, fallback: bool, stats: Stats)

  datatype Context = Context(
    generation: u32, sampleRate: u32, enable: bool, dcRemove: bool, apply: bool,
    target: u64, targetValid: bool, targetUpdate: bool)

  datatype Packet = Packet(cycle: Cycle, context: Context)

  // The value a closing block hands to the longer tiers.
  datatype Result = Result(
    sequence: u32, generation: u32, sampleRate: u32, dcRemove: bool, nominal: u8, cycleCount: u8,
    firstSample: u64, lastSample: u64, sampleCount: u32, stats: Stats,
    locked: bool, fallback: bool, first: bool, resynchronized: bool, apply: bool)

  // A Basic result together with the cycles it was folded from.
  datatype Block = Block(cycles: seq<Cycle>, result: Result)

  // The number of whole cycles in a 200 ms block; `other` stands for the answer
  // at a nominal frequency that is neither 50 nor 60 Hz.
  function ExpectedCycles(nominal: u8, other: u8): u8 {
    if nominal == 50 then 10 else if nominal == 60 then 12 else other
  }

  predicate Eligible(r: Result) {
    r.locked && !r.fallback && !r.first &&
    (r.nominal == 50 || r.nominal == 60) && r.cycleCount == ExpectedCycles(r.nominal, 0)
  }

  predicate SameConfiguration(a: Result, b: Result) {
    a.generation == b.generation && a.nominal == b.nominal && a.sampleRate == b.sampleRate &&
    a.dcRemove == b.dcRemove
  }

  function NextFirst(r: Result): u64 { Add64(r.firstSample, r.sampleCount) }

  // The fields an interval record shares, whatever its period.
  datatype Quad = Quad(
    number: u32, generation: u32, nominal: u8, sampleRate: u32, dcRemove: bool,
    firstSample: u64, lastSample: u64, firstSequence: u32, lastSequence: u32,
    totalSamples: u32, totalCycles: u32, stats: Stats)

  // The record of an interval that folds exactly `blocks`.
  ghost function QuadOf(number: u32, blocks: seq<Block>): Quad
    requires blocks != []
  {
    var first, last := blocks[0].result, blocks[|blocks| - 1].result;
    Quad(number, first.generation, first.nominal, first.sampleRate, first.dcRemove,
         first.firstSample, last.lastSample, first.sequence, last.sequence,
         Samples(blocks) % B32, TotalCycles(blocks) % B32, Fold(BlockStats(blocks)))
  }

  // ---- Lists of cycles and of blocks ----------------------------------

  ghost function CycleStats(cycles: seq<Cycle>): (s: seq<Stats>)
    ensures |s| == |cycles|
  {
    seq(|cycles|, k requires 0 <= k < |cycles| => cycles[k].stats)
  }

  ghost function BlockStats(blocks: seq<Block>): (s: seq<Stats>)
    ensures |s| == |blocks|
  {
    seq(|blocks|, k requires 0 <= k < |blocks| => blocks[k].result.stats)
  }

  ghost function Samples(blocks: seq<Block>): nat {
    if blocks == [] then 0 else Samples(blocks[..|blocks| - 1]) + blocks[|blocks| - 1].result.sampleCount
  }

  ghost function TotalCycles(blocks: seq<Block>): nat {
    if blocks == [] then 0 else TotalCycles(blocks[..|blocks| - 1]) + blocks[|blocks| - 1].result.cycleCount
  }

  ghost function CycleSamples(cycles: seq<Cycle>): nat {
    if cycles == [] then 0 else CycleSamples(cycles[..|cycles| - 1]) + cycles[|cycles| - 1].sampleCount
  }

  ghost function AllCycles(blocks: seq<Block>): seq<Cycle> {
    if blocks == [] then [] else AllCycles(blocks[..|blocks| - 1]) + blocks[|blocks| - 1].cycles
  }

  ghost predicate ConsecutiveBlocks(blocks: seq<Block>) {
    forall k :: 0 <= k < |blocks| ==>
      blocks[k].result.sequence == (blocks[0].result.sequence + k) % B32
  }

  ghost predicate OneConfiguration(blocks: seq<Block>) {
    forall k :: 0 <= k < |blocks| ==> SameConfiguration(blocks[0].result, blocks[k].result)
  }

  ghost predicate AllEligible(blocks: seq<Block>) {
    forall k :: 0 <= k < |blocks| ==> Eligible(blocks[k].result)
  }

  // The tail of `all`, as long as `part`, is `part`.
  ghost predicate SuffixOf<T>(part: seq<T>, all: seq<T>) {
    |part| <= |all| && part == all[|all| - |part|..]
  }

  lemma SuffixTransitive<T>(a: seq<T>, b: seq<T>, c: seq<T>)
    requires SuffixOf(a, b) && SuffixOf(b, c)
    ensures SuffixOf(a, c)
  {
  }

  lemma SuffixAppend<T>(part: seq<T>, all: seq<T>, x: T)
    requires SuffixOf(part, all)
    ensures SuffixOf(part + [x], all + [x]) && SuffixOf([x], all + [x])
  {
  }

  lemma CycleStatsAppend(cycles: seq<Cycle>, c: Cycle)
    ensures CycleStats(cycles + [c]) == CycleStats(cycles) + [c.stats]
  {
  }

  lemma BlockStatsAppend(blocks: seq<Block>, b: Block)
    ensures BlockStats(blocks + [b]) == BlockStats(blocks) + [b.result.stats]
  {
  }

  lemma BlockStatsConcat(a: seq<Block>, b: seq<Block>)
    ensures BlockStats(a + b) == BlockStats(a) + BlockStats(b)
  {
  }

  lemma CycleStatsConcat(a: seq<Cycle>, b: seq<Cycle>)
    ensures CycleStats(a + b) == CycleStats(a) + CycleStats(b)
  {
  }

  lemma SamplesAppend(blocks: seq<Block>, b: Block)
    ensures Samples(blocks + [b]) == Samples(blocks) + b.result.sampleCount
    ensures TotalCycles(blocks + [b]) == TotalCycles(blocks) + b.result.cycleCount
  {
    assert (blocks + [b])[..|blocks|] == blocks;
  }

  lemma OneBlock(b: Block)
    ensures Samples([b]) == b.result.sampleCount && TotalCycles([b]) == b.result.cycleCount
    ensures Fold(BlockStats([b])) == b.result.stats
  {
    assert [b][..0] == [];
    assert Samples([]) == 0 && TotalCycles([]) == 0;
    assert BlockStats([b]) == [b.result.stats];
  }

  lemma CycleSamplesAppend(cycles: seq<Cycle>, c: Cycle)
    ensures CycleSamples(cycles + [c]) == CycleSamples(cycles) + c.sampleCount
  {
    assert (cycles + [c])[..|cycles|] == cycles;
  }

  lemma {:induction false} SamplesConcat(a: seq<Block>, b: seq<Block>)
    ensures Samples(a + b) == Samples(a) + Samples(b)
    ensures TotalCycles(a + b) == TotalCycles(a) + TotalCycles(b)
  {
    if b == [] {
      assert a + b == a;
    } else {
      SamplesConcat(a, b[..|b| - 1]);
      assert (a + b)[..|a + b| - 1] == a + b[..|b| - 1];
    }
  }

  lemma NextIndex(first: u32, n: nat, sequence: u32)
    requires n > 0 && sequence == Add32((first + (n - 1)) % B32, 1)
    ensures sequence == (first + n) % B32
  {
  }

  lemma BlocksExtend(blocks: seq<Block>, b: Block)
    requires ConsecutiveBlocks(blocks) && OneConfiguration(blocks) && AllEligible(blocks) && Eligible(b.result)
    requires blocks != [] ==>
      && b.result.sequence == Add32(blocks[|blocks| - 1].result.sequence, 1)
      && SameConfiguration(blocks[0].result, b.result)
    ensures ConsecutiveBlocks(blocks + [b]) && OneConfiguration(blocks + [b]) && AllEligible(blocks + [b])
  {
    if blocks != [] { NextIndex(blocks[0].result.sequence, |blocks|, b.result.sequence); }
  }

  // The statistics of blocks that each fold their own cycles are the flat fold
  // over every cycle.
  ghost predicate FoldsItsCycles(b: Block) {
    b.cycles != [] && b.result.stats == Fold(CycleStats(b.cycles))
  }

  ghost predicate FlatFold(stats: Stats, blocks: seq<Block>) {
    AllCycles(blocks) != [] && stats == Fold(CycleStats(AllCycles(blocks)))
  }

  lemma {:induction false} FlatOverCycles(blocks: seq<Block>)
    requires blocks != [] && forall k :: 0 <= k < |blocks| ==> FoldsItsCycles(blocks[k])
    ensures FlatFold(Fold(BlockStats(blocks)), blocks)
  {
    var init, last := blocks[..|blocks| - 1], blocks[|blocks| - 1];
    if init == [] {
      assert AllCycles(blocks) == [] + last.cycles == last.cycles;
    } else {
      FlatOverCycles(init);
      assert blocks == init + [last];
      BlockStatsAppend(init, last);
      FoldAppend(BlockStats(init), last.result.stats);
      CycleStatsConcat(AllCycles(init), last.cycles);
      FoldConcat(CycleStats(AllCycles(init)), CycleStats(last.cycles));
    }
  }
}
