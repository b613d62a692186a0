/** The clock-aligned ten-minute tier and the cascaded two-hour tier, on lists. */
module LongTiers {
  import opened Words
  import opened IntervalTypes

  // A closed ten-minute interval. `since` lists every Basic result published
  // after the previous ten-minute interval, whose last result was `previous`.
  datatype Interval = Interval(
    number: u32, blocks: seq<Block>, since: seq<Block>, previous: u32,
    target: u64, overshoot: u32, contaminated: bool, targetValid: bool)

  predicate Aligned(i: Interval) { i.targetValid && !i.contaminated }

  // The 16-bit block counter reads the list's length modulo 2^16.
  datatype TenMinute = TenMinute(
    blocks: seq<Block>, since: seq<Block>, previous: u32,
    target: u64, targetValid: bool, contaminated: bool, updateSeen: bool,
    closedTarget: u64, overshoot: u32, sequence: u32)

  function InitialTen(): TenMinute {
    TenMinute([], [], 0, 0, false, true, false, 0, 0, 0)
  }

  function OnTarget(t: TenMinute, c: Context): TenMinute {
    t.(blocks := [], target := c.target, targetValid := c.targetValid, contaminated := true,
       updateSeen := c.targetUpdate)
  }

  predicate Empty(t: TenMinute) { |t.blocks| % B16 == 0 }

  predicate Continues(last: Result, r: Result) {
    r.sequence == Add32(last.sequence, 1) && r.firstSample == NextFirst(last)
  }

  predicate Breaks(t: TenMinute, r: Result) {
    t.blocks != [] && !Empty(t) &&
    (!SameConfiguration(t.blocks[0].result, r) || !Continues(t.blocks[|t.blocks| - 1].result, r))
  }

  function Gather(t: TenMinute, b: Block): TenMinute {
    if !t.targetValid || !Eligible(b.result) then t.(blocks := [], contaminated := true)
    else if Empty(t) then t.(blocks := [b])
    else if Breaks(t, b.result) then t.(blocks := [b], contaminated := true)
    else t.(blocks := t.blocks + [b])
  }

  predicate Reaches(t: TenMinute, r: Result) {
    t.targetValid && Eligible(r) && r.lastSample >= t.target
  }

  function Arm(t: TenMinute, r: Result): TenMinute {
    if !Reaches(t, r) then t
    else
      t.(closedTarget := t.target, overshoot := Min(r.lastSample - t.target, B32 - 1),
         target := Add64(t.target, r.sampleRate * 600))
  }

  function FoldTen(t: TenMinute, b: Block): TenMinute {
    Arm(Gather(t, b), b.result).(since := t.since + [b])
  }

  function IntervalOf(t: TenMinute): Interval {
    Interval(Add32(t.sequence, 1), t.blocks, t.since, t.previous,
             t.closedTarget, t.overshoot, t.contaminated, t.targetValid)
  }

  function FinaliseTen(t: TenMinute): TenMinute {
    t.(sequence := Add32(t.sequence, 1), blocks := [], since := [],
       previous := (t.previous + |t.since|) % B32, contaminated := false)
  }

  // ---- Every reachable ten-minute state ------------------------------------

  ghost predicate NumberedAfter(blocks: seq<Block>, previous: u32) {
    forall k :: 0 <= k < |blocks| ==> blocks[k].result.sequence == (previous + 1 + k) % B32
  }

  ghost predicate ContinuesAt(blocks: seq<Block>, k: nat)
    requires 0 < k < |blocks|
  {
    Continues(blocks[k - 1].result, blocks[k].result)
  }

  ghost predicate EachContinues(blocks: seq<Block>) {
    forall k :: 0 < k < |blocks| ==> ContinuesAt(blocks, k)
  }

  // Eligible Basic results under one configuration with no break in sequence
  // or sample axis.
  ghost predicate Linked(blocks: seq<Block>) {
    OneConfiguration(blocks) && AllEligible(blocks) && EachContinues(blocks)
  }

  ghost predicate Gathered(blocks: seq<Block>, since: seq<Block>, contaminated: bool) {
    && |blocks| <= B16
    && Linked(blocks)
    && SuffixOf(blocks, since)
    && (!contaminated && |since| <= B16 ==> blocks == since)
  }

  ghost predicate AllBefore(blocks: seq<Block>, target: u64) {
    forall k :: 0 <= k < |blocks| ==> blocks[k].result.lastSample < target
  }

  ghost predicate InvTen(t: TenMinute) {
    && Gathered(t.blocks, t.since, t.contaminated)
    && NumberedAfter(t.since, t.previous)
    && (t.blocks != [] ==> t.targetValid)
  }

  // Armed: the interval's last block is the first to reach the target.
  ghost predicate Reached(blocks: seq<Block>, target: u64) {
    && blocks != []
    && AllBefore(blocks[..|blocks| - 1], target)
    && blocks[|blocks| - 1].result.lastSample >= target
  }

  // What a published ten-minute record folds. An aligned record omits no Basic
  // result exactly when its 16-bit counter did not wrap.
  ghost predicate SoundInterval(i: Interval) {
    && i.blocks != []
    && Linked(i.blocks)
    && SuffixOf(i.blocks, i.since)
    && NumberedAfter(i.since, i.previous)
    && Reached(i.blocks, i.target)
    && (Aligned(i) ==> (i.blocks == i.since <==> |i.since| <= B16))
  }

  lemma LinkedExtends(blocks: seq<Block>, b: Block)
    requires Linked(blocks) && Eligible(b.result)
    requires blocks != [] ==>
      SameConfiguration(blocks[0].result, b.result) && Continues(blocks[|blocks| - 1].result, b.result)
    ensures Linked(blocks + [b])
  {
    var all := blocks + [b];
    forall k | 0 < k < |all| ensures ContinuesAt(all, k) {
      if k < |blocks| { assert ContinuesAt(blocks, k); }
    }
  }

  lemma LinkedSeed(b: Block)
    requires Eligible(b.result)
    ensures Linked([b])
  {
  }

  // A lone block is all there is since, unless it is known to be partial.
  lemma SeedGathered(blocks: seq<Block>, since: seq<Block>, contaminated: bool, b: Block, partial: bool)
    requires Gathered(blocks, since, contaminated) && Eligible(b.result)
    requires !partial ==> !contaminated && (blocks == [] || |blocks| == B16)
    ensures Gathered([b], since + [b], partial)
  {
    LinkedSeed(b);
    SuffixAppend(blocks, since, b);
    hide Linked, Eligible;
  }

  lemma ExtendGathered(blocks: seq<Block>, since: seq<Block>, contaminated: bool, b: Block)
    requires Gathered(blocks, since, contaminated) && Eligible(b.result) && 0 < |blocks| < B16
    requires SameConfiguration(blocks[0].result, b.result) && Continues(blocks[|blocks| - 1].result, b.result)
    ensures Gathered(blocks + [b], since + [b], contaminated)
  {
    LinkedExtends(blocks, b);
    SuffixAppend(blocks, since, b);
    hide Linked, Eligible, SuffixOf;
  }

  lemma NoneGathered(since: seq<Block>)
    ensures Gathered([], since, true)
  {
  }

  lemma GatherPreserves(t: TenMinute, b: Block)
    requires Gathered(t.blocks, t.since, t.contaminated)
    ensures var u := Gather(t, b); Gathered(u.blocks, t.since + [b], u.contaminated)
    ensures Gather(t, b).blocks != [] ==> t.targetValid
  {
    assert |t.blocks| <= B16;
    hide Gathered, Eligible;
    if !t.targetValid || !Eligible(b.result) {
      NoneGathered(t.since + [b]);
    } else if Empty(t) {
      SeedGathered(t.blocks, t.since, t.contaminated, b, t.contaminated);
    } else if Breaks(t, b.result) {
      SeedGathered(t.blocks, t.since, t.contaminated, b, true);
    } else {
      ExtendGathered(t.blocks, t.since, t.contaminated, b);
    }
  }

  lemma ReachedAppend(blocks: seq<Block>, b: Block, target: u64)
    requires AllBefore(blocks, target)
    ensures b.result.lastSample >= target ==> Reached(blocks + [b], target)
    ensures b.result.lastSample < target ==> AllBefore(blocks + [b], target)
  {
    assert (blocks + [b])[..|blocks|] == blocks;
  }

  lemma GatherBefore(t: TenMinute, b: Block)
    requires AllBefore(t.blocks, t.target)
    ensures Reaches(t, b.result) ==> Reached(Gather(t, b).blocks, t.target)
    ensures !Reaches(t, b.result) ==> AllBefore(Gather(t, b).blocks, t.target)
  {
    assert AllBefore([], t.target);
    hide Eligible, AllBefore, Reached, Gather;
    GatherBlocks(t, b);
    ReachedAppend([], b, t.target);
    assert [] + [b] == [b];
    ReachedAppend(t.blocks, b, t.target);
  }

  lemma GatherBlocks(t: TenMinute, b: Block)
    ensures var blocks := Gather(t, b).blocks;
            if t.targetValid && Eligible(b.result) then blocks == [b] || blocks == t.blocks + [b] else blocks == []
  {
    hide Eligible, Empty, Breaks;
  }

  lemma NumberedExtends(since: seq<Block>, previous: u32, b: Block)
    requires NumberedAfter(since, previous) && b.result.sequence == (previous + 1 + |since|) % B32
    ensures NumberedAfter(since + [b], previous)
  {
  }

  lemma FoldTenFields(t: TenMinute, b: Block)
    ensures var u := FoldTen(t, b);
            && u.blocks == Gather(t, b).blocks && u.contaminated == Gather(t, b).contaminated
            && u.since == t.since + [b] && u.previous == t.previous
            && u.targetValid == t.targetValid && u.sequence == t.sequence && u.updateSeen == t.updateSeen
            && if Reaches(t, b.result) then u.closedTarget == t.target else u.target == t.target
  {
    assert Gather(t, b).target == t.target && Gather(t, b).targetValid == t.targetValid;
  }

  lemma GatherFields(t: TenMinute, b: Block)
    ensures Gather(t, b) == t.(blocks := Gather(t, b).blocks, contaminated := Gather(t, b).contaminated)
    ensures Reaches(Gather(t, b), b.result) == Reaches(t, b.result)
    ensures Arm(Gather(t, b), b.result).since == t.since
  {
  }

  lemma FoldTenPreserves(t: TenMinute, b: Block)
    requires InvTen(t) && AllBefore(t.blocks, t.target)
    requires b.result.sequence == (t.previous + 1 + |t.since|) % B32
    ensures InvTen(FoldTen(t, b))
    ensures Reaches(t, b.result) ==> Reached(FoldTen(t, b).blocks, FoldTen(t, b).closedTarget)
    ensures !Reaches(t, b.result) ==> AllBefore(FoldTen(t, b).blocks, FoldTen(t, b).target)
  {
    hide Gathered, NumberedAfter, AllBefore, Reached, FoldTen, Reaches, Gather;
    GatherPreserves(t, b);
    GatherBefore(t, b);
    NumberedExtends(t.since, t.previous, b);
    FoldTenFields(t, b);
  }

  lemma OnTargetPreserves(t: TenMinute, c: Context)
    requires InvTen(t)
    ensures InvTen(OnTarget(t, c)) && AllBefore(OnTarget(t, c).blocks, OnTarget(t, c).target)
  {
  }

  lemma FinaliseTenSound(t: TenMinute)
    requires InvTen(t) && Reached(t.blocks, t.closedTarget)
    ensures SoundInterval(IntervalOf(t))
    ensures InvTen(FinaliseTen(t)) && AllBefore(FinaliseTen(t).blocks, FinaliseTen(t).target)
  {
  }

  // ---- The two-hour tier ----------------------------------------------------

  const INTERVALS: int := 12

  datatype TwoHour = TwoHour(parts: seq<Interval>, sequence: u32)

  function InitialTwo(): TwoHour { TwoHour([], 0) }

  function Drop(w: TwoHour): TwoHour { w.(parts := []) }

  predicate Cascades(i: Interval) {
    i.blocks != [] && Aligned(i) && |i.blocks| % B16 != 0 &&
    (i.blocks[0].result.nominal == 50 || i.blocks[0].result.nominal == 60)
  }

  ghost predicate Abuts(last: Interval, i: Interval) {
    && last.blocks != [] && i.blocks != []
    && SameConfiguration(last.blocks[0].result, i.blocks[0].result)
    && i.number == Add32(last.number, 1)
    && i.blocks[0].result.firstSample == Add64(last.blocks[0].result.firstSample, Samples(last.blocks) % B32)
  }

  // An interval that may not be cascaded ends the two-hour interval; one that
  // does not abut it starts the next.
  ghost function FoldTwo(w: TwoHour, i: Interval): TwoHour {
    if !Cascades(i) then Drop(w)
    else if w.parts != [] && !Abuts(w.parts[|w.parts| - 1], i) then w.(parts := [i])
    else w.(parts := w.parts + [i])
  }

  function FinaliseTwo(w: TwoHour): TwoHour { TwoHour([], Add32(w.sequence, 1)) }

  ghost predicate Usable(i: Interval) { SoundInterval(i) && Cascades(i) }

  ghost predicate AbutsAt(parts: seq<Interval>, k: nat)
    requires 0 < k < |parts|
  {
    Abuts(parts[k - 1], parts[k])
  }

  // Each part resumes the Basic sequence where the part before it ended.
  ghost predicate ResumesAt(parts: seq<Interval>, k: nat)
    requires 0 < k < |parts|
  {
    parts[k].previous == (parts[k - 1].previous + |parts[k - 1].since|) % B32
  }

  ghost predicate Chained(parts: seq<Interval>) {
    forall k :: 0 < k < |parts| ==> AbutsAt(parts, k) && ResumesAt(parts, k)
  }

  ghost predicate InvTwo(w: TwoHour, previous: u32) {
    && |w.parts| <= INTERVALS
    && (forall k :: 0 <= k < |w.parts| ==> Usable(w.parts[k]))
    && Chained(w.parts)
    && (w.parts != [] ==>
        var last := w.parts[|w.parts| - 1]; previous == (last.previous + |last.since|) % B32)
  }

  // A published two-hour record: twelve uncontaminated ten-minute intervals
  // with consecutive numbers, end to end on the sample axis.
  ghost predicate SoundTwoHour(parts: seq<Interval>) {
    && |parts| == INTERVALS
    && (forall k :: 0 <= k < |parts| ==> Usable(parts[k]))
    && Chained(parts)
  }

  lemma ChainedExtends(parts: seq<Interval>, i: Interval)
    requires Chained(parts)
    requires parts != [] ==>
      var last := parts[|parts| - 1]; Abuts(last, i) && i.previous == (last.previous + |last.since|) % B32
    ensures Chained(parts + [i])
  {
    hide Abuts;
    var all := parts + [i];
    forall k | 0 < k < |all| ensures AbutsAt(all, k) && ResumesAt(all, k) {
      if k < |parts| { assert AbutsAt(parts, k) && ResumesAt(parts, k); }
    }
  }

  lemma SoundNonEmpty(parts: seq<Interval>)
    requires forall k :: 0 <= k < |parts| ==> Usable(parts[k])
    ensures forall k :: 0 <= k < |parts| ==> parts[k].blocks != []
  {
  }

  // All parts, hence all their blocks, share one configuration.
  lemma {:induction false} OneConfigurationOfParts(parts: seq<Interval>)
    requires parts != [] && Chained(parts) && forall k :: 0 <= k < |parts| ==> Usable(parts[k])
    ensures parts[0].blocks != [] && parts[|parts| - 1].blocks != []
    ensures AllBlocks(parts) != [] && AllBlocks(parts)[0] == parts[0].blocks[0]
    ensures SameConfiguration(parts[0].blocks[0].result, parts[|parts| - 1].blocks[0].result)
    ensures AllBlocks(parts)[|AllBlocks(parts)| - 1]
         == parts[|parts| - 1].blocks[|parts[|parts| - 1].blocks| - 1]
  {
    var init, last := parts[..|parts| - 1], parts[|parts| - 1];
    assert Usable(last);
    if init == [] {
      assert AllBlocks(parts) == [] + last.blocks == last.blocks;
    } else {
      assert AbutsAt(parts, |parts| - 1);
      ChainedPrefix(parts);
      OneConfigurationOfParts(init);
      hide Chained, Usable;
    }
  }

  lemma FoldTwoPreserves(w: TwoHour, i: Interval)
    requires InvTwo(w, i.previous) && |w.parts| < INTERVALS && SoundInterval(i)
    ensures InvTwo(FoldTwo(w, i), (i.previous + |i.since|) % B32)
  {
    ChainedExtends([], i);
    assert [] + [i] == [i];
    if w.parts == [] || Abuts(w.parts[|w.parts| - 1], i) { ChainedExtends(w.parts, i); }
    hide SoundInterval, Cascades, Abuts, Chained;
  }

  // ---- The cascaded fold is the flat fold -----------------------------------

  ghost function AllBlocks(parts: seq<Interval>): seq<Block> {
    if parts == [] then [] else AllBlocks(parts[..|parts| - 1]) + parts[|parts| - 1].blocks
  }

  ghost function PartStats(parts: seq<Interval>): (s: seq<Stats>)
    requires forall k :: 0 <= k < |parts| ==> parts[k].blocks != []
    ensures |s| == |parts|
  {
    seq(|parts|, k requires 0 <= k < |parts| => Fold(BlockStats(parts[k].blocks)))
  }

  lemma AllBlocksAppend(parts: seq<Interval>, i: Interval)
    ensures AllBlocks(parts + [i]) == AllBlocks(parts) + i.blocks
  {
    assert (parts + [i])[..|parts|] == parts;
  }

  lemma {:induction false} CascadeIsFlat(parts: seq<Interval>)
    requires parts != [] && forall k :: 0 <= k < |parts| ==> parts[k].blocks != []
    ensures AllBlocks(parts) != []
    ensures Fold(PartStats(parts)) == Fold(BlockStats(AllBlocks(parts)))
  {
    var init, last := parts[..|parts| - 1], parts[|parts| - 1];
    if init == [] {
      assert AllBlocks(parts) == [] + last.blocks == last.blocks;
    } else {
      CascadeIsFlat(init);
      assert PartStats(parts) == PartStats(init) + [Fold(BlockStats(last.blocks))];
      FoldAppend(PartStats(init), Fold(BlockStats(last.blocks)));
      BlockStatsConcat(AllBlocks(init), last.blocks);
      FoldConcat(BlockStats(AllBlocks(init)), BlockStats(last.blocks));
    }
  }

  // With no counter wrap, the twelve intervals are one unbroken run of Basic
  // results.
  ghost predicate Unwrapped(i: Interval) { Usable(i) && |i.since| <= B16 }

  lemma WholeInterval(i: Interval)
    requires Unwrapped(i)
    ensures i.blocks == i.since && NumberedAfter(i.blocks, i.previous)
  {
  }

  lemma ChainedPrefix(parts: seq<Interval>)
    requires Chained(parts) && |parts| > 1
    ensures Chained(parts[..|parts| - 1])
    ensures parts[|parts| - 1].previous == (parts[|parts| - 2].previous + |parts[|parts| - 2].since|) % B32
  {
    hide Abuts;
    var init := parts[..|parts| - 1];
    assert ResumesAt(parts, |parts| - 1);
    forall k | 0 < k < |init| ensures AbutsAt(init, k) && ResumesAt(init, k) {
      assert AbutsAt(parts, k) && ResumesAt(parts, k);
    }
  }

  lemma OmitsStep(init: seq<Interval>, last: Interval, start: u32)
    requires NumberedAfter(AllBlocks(init), start) && (start + |AllBlocks(init)|) % B32 == last.previous
    requires NumberedAfter(last.blocks, last.previous)
    ensures NumberedAfter(AllBlocks(init + [last]), start)
    ensures (start + |AllBlocks(init + [last])|) % B32 == (last.previous + |last.blocks|) % B32
  {
    hide NumberedAfter;
    AllBlocksAppend(init, last);
    NumberedJoin(AllBlocks(init), start, last.blocks, last.previous);
  }

  lemma NothingOmitted(start: u32)
    ensures AllBlocks([]) == [] && NumberedAfter(AllBlocks([]), start) && (start + |AllBlocks([])|) % B32 == start
  {
  }

  // With no counter wrap, the twelve intervals are one unbroken run of Basic
  // results.
  lemma {:induction false} TwoHourOmitsNothing(parts: seq<Interval>)
    requires parts != [] && Chained(parts)
    requires forall k :: 0 <= k < |parts| ==> Unwrapped(parts[k])
    ensures NumberedAfter(AllBlocks(parts), parts[0].previous)
    ensures (parts[0].previous + |AllBlocks(parts)|) % B32
         == (parts[|parts| - 1].previous + |parts[|parts| - 1].since|) % B32
  {
    hide Chained, Unwrapped, NumberedAfter, AllBlocks;
    var init, last := parts[..|parts| - 1], parts[|parts| - 1];
    WholeInterval(last);
    assert parts == init + [last];
    if init == [] {
      NothingOmitted(parts[0].previous);
    } else {
      ChainedPrefix(parts);
      TwoHourOmitsNothing(init);
      assert AllBlocks(init) == AllBlocks(parts[..|parts| - 1]);
    }
    OmitsStep(init, last, parts[0].previous);
  }

  lemma NumberedJoin(a: seq<Block>, start: u32, b: seq<Block>, middle: u32)
    requires NumberedAfter(a, start) && NumberedAfter(b, middle) && middle == (start + |a|) % B32
    ensures NumberedAfter(a + b, start)
    ensures (start + |a + b|) % B32 == (middle + |b|) % B32
  {
    ModAdd(start + |a|, |b|, B32);
    forall k | 0 <= k < |a + b|
      ensures (a + b)[k].result.sequence == (start + 1 + k) % B32
    {
      if k >= |a| { ModAdd(start + |a|, 1 + (k - |a|), B32); }
    }
  }

  // ---- The sample axis ----------------------------------------------------------

  // Linked blocks end where their samples do, modulo 2^64.
  lemma {:induction false} LinkedEnd(blocks: seq<Block>)
    requires blocks != [] && EachContinues(blocks)
    ensures NextFirst(blocks[|blocks| - 1].result) == (blocks[0].result.firstSample + Samples(blocks)) % B64
  {
    var init, last := blocks[..|blocks| - 1], blocks[|blocks| - 1];
    if init == [] {
      OneBlock(last);
      assert blocks == [last];
    } else {
      assert ContinuesAt(blocks, |blocks| - 1);
      PrefixContinues(blocks);
      LinkedEnd(init);
      assert blocks == init + [last];
      SamplesAppend(init, last);
      hide Samples, EachContinues;
      ModAdd(blocks[0].result.firstSample + Samples(init), last.result.sampleCount, B64);
    }
  }

  lemma PrefixContinues(blocks: seq<Block>)
    requires EachContinues(blocks) && |blocks| > 1
    ensures EachContinues(blocks[..|blocks| - 1])
  {
    var init := blocks[..|blocks| - 1];
    forall k | 0 < k < |init| ensures ContinuesAt(init, k) { assert ContinuesAt(blocks, k); }
  }

  lemma ContinuesJoin(a: seq<Block>, b: seq<Block>)
    requires EachContinues(a) && EachContinues(b) && a != [] && b != []
    requires Continues(a[|a| - 1].result, b[0].result)
    ensures EachContinues(a + b)
  {
    hide Continues;
    forall k | 0 < k < |a + b| ensures ContinuesAt(a + b, k) {
      if k < |a| { assert ContinuesAt(a, k); } else if k > |a| { assert ContinuesAt(b, k - |a|); }
    }
  }

  // The sample counters of an interval did not wrap.
  ghost predicate CountersFit(i: Interval) { Unwrapped(i) && Samples(i.blocks) < B32 }

  lemma NumberedEnds(blocks: seq<Block>, previous: u32)
    requires NumberedAfter(blocks, previous) && blocks != []
    ensures blocks[0].result.sequence == (previous + 1) % B32
    ensures blocks[|blocks| - 1].result.sequence == (previous + |blocks|) % B32
  {
  }

  lemma PartsNumbered(last: Interval, i: Interval)
    requires Unwrapped(last) && Unwrapped(i) && i.previous == (last.previous + |last.since|) % B32
    ensures last.blocks != [] && i.blocks != []
    ensures i.blocks[0].result.sequence == Add32(last.blocks[|last.blocks| - 1].result.sequence, 1)
  {
    WholeInterval(last);
    WholeInterval(i);
    NumberedEnds(last.blocks, last.previous);
    NumberedEnds(i.blocks, i.previous);
    hide Unwrapped, NumberedAfter;
  }

  lemma PartsAdjoin(last: Interval, i: Interval)
    requires CountersFit(last) && Abuts(last, i)
    ensures i.blocks[0].result.firstSample == NextFirst(last.blocks[|last.blocks| - 1].result)
  {
    hide Unwrapped, EachContinues, Samples, NextFirst, SameConfiguration;
    UnwrappedContinues(last);
    LinkedEnd(last.blocks);
    SmallResidue(Samples(last.blocks));
  }

  lemma SmallResidue(x: nat)
    requires x < B32
    ensures x % B32 == x
  {
  }

  lemma UnwrappedContinues(i: Interval)
    requires Unwrapped(i)
    ensures i.blocks != [] && EachContinues(i.blocks)
  {
  }

  // Two chained parts continue each other block by block.
  lemma PartsContinue(last: Interval, i: Interval)
    requires CountersFit(last) && CountersFit(i) && Abuts(last, i)
    requires i.previous == (last.previous + |last.since|) % B32
    ensures Continues(last.blocks[|last.blocks| - 1].result, i.blocks[0].result)
  {
    assert Unwrapped(last) && Unwrapped(i);
    hide CountersFit, Unwrapped, Abuts, Add32, NextFirst;
    PartsNumbered(last, i);
    PartsAdjoin(last, i);
  }

  lemma FitsUsable(parts: seq<Interval>)
    requires forall k :: 0 <= k < |parts| ==> CountersFit(parts[k])
    ensures forall k :: 0 <= k < |parts| ==> Usable(parts[k]) && parts[k].blocks != []
    ensures forall k :: 0 <= k < |parts| ==> EachContinues(parts[k].blocks)
  {
  }

  // With no counter wrap the blocks of all parts are one unbroken run on the
  // sample axis too.
  lemma {:induction false} TwoHourContinues(parts: seq<Interval>)
    requires parts != [] && Chained(parts)
    requires forall k :: 0 <= k < |parts| ==> CountersFit(parts[k])
    ensures EachContinues(AllBlocks(parts))
  {
    hide CountersFit, EachContinues, Chained, Usable, Abuts, Continues;
    var init, last := parts[..|parts| - 1], parts[|parts| - 1];
    FitsUsable(parts);
    if init == [] {
      assert AllBlocks(parts) == [] + last.blocks == last.blocks;
    } else {
      ChainedPrefix(parts);
      TwoHourContinues(init);
      OneConfigurationOfParts(init);
      ChainedLast(parts);
      PartsContinue(init[|init| - 1], last);
      ContinuesJoin(AllBlocks(init), last.blocks);
    }
  }

  lemma ChainedLast(parts: seq<Interval>)
    requires Chained(parts) && |parts| > 1
    ensures Abuts(parts[|parts| - 2], parts[|parts| - 1])
  {
    hide Abuts;
    assert AbutsAt(parts, |parts| - 1);
  }
}
