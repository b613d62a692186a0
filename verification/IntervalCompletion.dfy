/** The interval tiers also complete: undisturbed input always closes the next
    interval, with exactly that input. */
module IntervalCompletion {
  import opened Words
  import opened IntervalTypes
  import B = BasicTier
  import A = AggregateTier
  import L = LongTiers

  // ---- Cycles into a block -----------------------------------------------------

  ghost function AcceptAll(b: B.Basic, cycles: seq<Cycle>): (B.Basic, seq<Block>) {
    if cycles == [] then (b, [])
    else
      var n := |cycles| - 1;
      var (before, blocks) := AcceptAll(b, cycles[..n]);
      var (after, closed) := B.Accept(before, cycles[n]);
      (after, blocks + if closed.Some? then [closed.value] else [])
  }

  lemma AcceptAllStep(b: B.Basic, cycles: seq<Cycle>, n: nat)
    requires n < |cycles|
    ensures var (before, blocks) := AcceptAll(b, cycles[..n]);
            var (after, closed) := B.Accept(before, cycles[n]);
            AcceptAll(b, cycles[..n + 1]) == (after, blocks + if closed.Some? then [closed.value] else [])
  {
    hide B.Accept;
    assert cycles[..n + 1][..n] == cycles[..n];
  }

  // Whole cycles of the running configuration with no gap mark and no UTC
  // mark among them.
  ghost predicate Undisturbed(b: B.Basic, cycles: seq<Cycle>) {
    && B.Whole(cycles) && b.settings.enable
    && (forall k :: 0 <= k < |cycles| ==> cycles[k].generation == b.settings.generation)
    && (forall k :: 0 < k < |cycles| ==> !cycles[k].gap)
    && (b.targetValid ==> forall k :: 0 <= k < |cycles| ==> cycles[k].firstSample < b.target)
  }

  ghost predicate Holding(s: B.Basic, b: B.Basic, cycles: seq<Cycle>) {
    && s.active == cycles && s.shadow == [] && s.settings == b.settings && s.other == b.other
    && s.target == b.target && s.targetValid == b.targetValid && s.sequence == b.sequence
    && (cycles != [] ==>
        && s.haveExpectation
        && s.nextResult == (cycles[0].sequence + |cycles|) % B32
        && s.nextCycle == (cycles[0].cycleSequence + |cycles|) % B32)
  }

  lemma NextNumber(first: u32, n: nat)
    ensures Add32((first + n) % B32, 1) == (first + (n + 1)) % B32
  {
  }

  lemma HoldNext(s: B.Basic, b: B.Basic, cycles: seq<Cycle>, n: nat)
    requires n < |cycles| && Undisturbed(b, cycles) && Holding(s, b, cycles[..n])
    ensures Holding(B.Join(B.Admit(s, cycles[n]), cycles[n]), b, cycles[..n + 1])
  {
    assert cycles[..n + 1] == cycles[..n] + [cycles[n]];
    NextNumber(cycles[0].sequence, n);
    NextNumber(cycles[0].cycleSequence, n);
  }

  // A cycle that leaves the block short is joined and closes nothing.
  lemma JoinsOpen(s: B.Basic, b: B.Basic, cycles: seq<Cycle>, n: nat)
    requires n < |cycles| && Undisturbed(b, cycles) && Holding(s, b, cycles[..n])
    requires n + 1 < ExpectedCycles(cycles[0].nominal, b.other)
    ensures var (after, closed) := B.Accept(s, cycles[n]);
            closed.None? && Holding(after, b, cycles[..n + 1])
  {
    HoldNext(s, b, cycles, n);
    assert b.settings.enable && cycles[n].generation == b.settings.generation;
    hide B.Join, B.Admit, Undisturbed;
    assert cycles[..n + 1][0] == cycles[0];
  }

  lemma {:induction false} BlockFills(b: B.Basic, cycles: seq<Cycle>, n: nat)
    requires Undisturbed(b, cycles) && b.active == [] && b.shadow == [] && n <= |cycles|
    requires cycles != [] && n < ExpectedCycles(cycles[0].nominal, b.other)
    ensures AcceptAll(b, cycles[..n]).1 == [] && Holding(AcceptAll(b, cycles[..n]).0, b, cycles[..n])
  {
    if n == 0 {
      assert cycles[..0] == [];
    } else {
      hide AcceptAll, Undisturbed, Holding, B.Accept;
      var m := n - 1;
      BlockFills(b, cycles, m);
      AcceptAllStep(b, cycles, m);
      JoinsOpen(AcceptAll(b, cycles[..m]).0, b, cycles, m);
    }
  }

  // With no block open, the next 10 or 12 undisturbed whole cycles are
  // published as one block, and none is published before.
  lemma WholeCyclesClose(b: B.Basic, cycles: seq<Cycle>)
    requires Undisturbed(b, cycles) && b.active == [] && b.shadow == []
    requires cycles != [] && |cycles| == ExpectedCycles(cycles[0].nominal, b.other)
    ensures var (s, blocks) := AcceptAll(b, cycles);
            && |blocks| == 1 && blocks[0].cycles == cycles
            && blocks[0].result.sequence == Add32(b.sequence, 1)
            && s.active == [] && s.shadow == []
  {
    var n := |cycles| - 1;
    assert cycles[..n + 1] == cycles;
    BlockFills(b, cycles, n);
    AcceptAllStep(b, cycles, n);
    HoldNext(AcceptAll(b, cycles[..n]).0, b, cycles, n);
    hide AcceptAll, B.Join, B.Admit, Undisturbed;
  }

  // ---- Blocks into a 150/180-cycle interval ----------------------------------------

  function FoldAll(a: A.Aggregate, blocks: seq<Block>): A.Aggregate {
    if blocks == [] then a else A.Fold(FoldAll(a, blocks[..|blocks| - 1]), blocks[|blocks| - 1])
  }

  lemma FoldAllStep(a: A.Aggregate, blocks: seq<Block>, n: nat)
    requires n < |blocks|
    ensures FoldAll(a, blocks[..n + 1]) == A.Fold(FoldAll(a, blocks[..n]), blocks[n])
  {
    hide A.Fold;
    assert blocks[..n + 1][..n] == blocks[..n];
  }

  // At most one UTC mark inside the interval, at `mark` if that is positive.
  ghost predicate MarkedAt(a: A.Aggregate, blocks: seq<Block>, mark: nat) {
    && A.Clean(blocks) && mark < |blocks|
    && (forall k :: 0 <= k < |blocks| ==> blocks[k].result.apply == a.applySeen)
    && (forall k :: 0 < k < |blocks| ==> (blocks[k].result.resynchronized <==> k == mark))
  }

  function Since(blocks: seq<Block>, mark: nat): seq<Block> {
    if 0 < mark < |blocks| then blocks[mark..] else []
  }

  lemma FoldNext(a: A.Aggregate, blocks: seq<Block>, mark: nat, n: nat)
    requires MarkedAt(a, blocks, mark) && n < |blocks|
    ensures var s := a.(active := blocks[..n], shadow := Since(blocks[..n], mark));
            A.Fold(s, blocks[n])
              == A.Close(a.(active := blocks[..n + 1], shadow := Since(blocks[..n + 1], mark)))
  {
    var s := a.(active := blocks[..n], shadow := Since(blocks[..n], mark));
    assert blocks[..n + 1] == blocks[..n] + [blocks[n]];
    if n > 0 {
      assert A.Follows(blocks[n - 1].result, blocks[n].result);
      assert !A.Breaks(s.active, blocks[n].result);
    }
    hide A.Breaks, Eligible;
    assert Since(blocks[..n + 1], mark)
      == if n == mark && n > 0 then [blocks[n]] else if 0 < mark < n then Since(blocks[..n], mark) + [blocks[n]] else [];
  }

  function Filling(a: A.Aggregate, blocks: seq<Block>, mark: nat): A.Aggregate {
    a.(active := blocks, shadow := Since(blocks, mark))
  }

  lemma FillNext(a: A.Aggregate, blocks: seq<Block>, mark: nat, n: nat)
    requires MarkedAt(a, blocks, mark) && n < |blocks| && n + 1 < A.BLOCKS
    requires FoldAll(a, blocks[..n]) == Filling(a, blocks[..n], mark)
    ensures FoldAll(a, blocks[..n + 1]) == Filling(a, blocks[..n + 1], mark)
  {
    hide FoldAll, A.Fold, MarkedAt, Since, A.Close;
    FoldAllStep(a, blocks, n);
    FoldNext(a, blocks, mark, n);
    ShortStaysOpen(Filling(a, blocks[..n + 1], mark));
  }

  lemma {:induction false} IntervalFills(a: A.Aggregate, blocks: seq<Block>, mark: nat, n: nat)
    requires MarkedAt(a, blocks, mark) && a.active == [] && a.shadow == []
    requires n <= |blocks| && n < A.BLOCKS
    ensures FoldAll(a, blocks[..n]) == Filling(a, blocks[..n], mark)
  {
    if n == 0 {
      assert blocks[..0] == [];
    } else {
      hide FoldAll, MarkedAt, Filling;
      IntervalFills(a, blocks, mark, n - 1);
      FillNext(a, blocks, mark, n - 1);
    }
  }

  lemma ShortStaysOpen(a: A.Aggregate)
    requires |a.active| < A.BLOCKS
    ensures A.Close(a) == a
  {
  }

  // With no interval open, the next fifteen clean blocks close one, and not
  // before. If a UTC mark fell inside, the interval restarted there stays
  // open beside it and goes on.
  lemma FifteenBlocksClose(a: A.Aggregate, blocks: seq<Block>, mark: nat)
    requires MarkedAt(a, blocks, mark) && a.active == [] && a.shadow == [] && a.closed == []
    requires |blocks| == A.BLOCKS
    ensures var s := FoldAll(a, blocks);
            s.closed == blocks && s.active == Since(blocks, mark) && s.shadow == []
    ensures forall n :: 0 <= n < A.BLOCKS ==> FoldAll(a, blocks[..n]).closed == []
  {
    forall n | 0 <= n < A.BLOCKS ensures FoldAll(a, blocks[..n]).closed == [] {
      IntervalFills(a, blocks, mark, n);
    }
    var m := A.BLOCKS - 1;
    assert blocks[..m + 1] == blocks;
    IntervalFills(a, blocks, mark, m);
    FoldAllStep(a, blocks, m);
    FoldNext(a, blocks, mark, m);
    hide FoldAll, A.Fold, A.Clean, MarkedAt;
  }

  // ---- Blocks into a ten-minute interval ----------------------------------------------

  function GatherAll(t: L.TenMinute, blocks: seq<Block>): L.TenMinute {
    if blocks == [] then t else L.FoldTen(GatherAll(t, blocks[..|blocks| - 1]), blocks[|blocks| - 1])
  }

  lemma GatherAllStep(t: L.TenMinute, blocks: seq<Block>, n: nat)
    requires n < |blocks|
    ensures GatherAll(t, blocks[..n + 1]) == L.FoldTen(GatherAll(t, blocks[..n]), blocks[n])
  {
    hide L.FoldTen;
    assert blocks[..n + 1][..n] == blocks[..n];
  }

  lemma GatherNext(t: L.TenMinute, blocks: seq<Block>, n: nat)
    requires L.Linked(blocks) && n < |blocks| && n < B16 && t.targetValid
    ensures L.Gather(t.(blocks := blocks[..n]), blocks[n]) == t.(blocks := blocks[..n + 1])
  {
    assert blocks[..n + 1] == blocks[..n] + [blocks[n]];
    if n > 0 { assert L.ContinuesAt(blocks, n); }
  }

  lemma FoldTenNext(t: L.TenMinute, blocks: seq<Block>, n: nat)
    requires L.Linked(blocks) && n < |blocks| && n < B16 && t.targetValid
    ensures Eligible(blocks[n].result)
    ensures L.FoldTen(t.(blocks := blocks[..n], since := blocks[..n]), blocks[n])
         == L.Arm(t.(blocks := blocks[..n + 1]), blocks[n].result).(since := blocks[..n + 1])
  {
    GatherNext(t.(since := blocks[..n]), blocks, n);
    assert blocks[..n + 1] == blocks[..n] + [blocks[n]];
    assert Eligible(blocks[n].result);
    hide L.Gather, L.Linked, Eligible;
  }

  lemma {:induction false} TenMinutesFill(t: L.TenMinute, blocks: seq<Block>, n: nat)
    requires L.Linked(blocks) && t.targetValid && t.blocks == [] && t.since == []
    requires n <= |blocks| && n < B16 && L.AllBefore(blocks[..n], t.target)
    ensures GatherAll(t, blocks[..n]) == t.(blocks := blocks[..n], since := blocks[..n])
  {
    hide L.Linked, L.Gather, L.FoldTen, Eligible;
    if n > 0 {
      var m := n - 1;
      assert blocks[..m] == blocks[..n][..m] && blocks[..n][m] == blocks[m];
      TenMinutesFill(t, blocks, m);
      GatherAllStep(t, blocks, m);
      FoldTenNext(t, blocks, m);
    }
  }

  // With a target set and nothing gathered, linked blocks up to the first that
  // reaches the target make one interval of exactly these blocks, uncontaminated
  // if the tier was.
  lemma TargetCloses(t: L.TenMinute, blocks: seq<Block>)
    requires L.Linked(blocks) && t.targetValid && t.blocks == [] && t.since == []
    requires L.Reached(blocks, t.target) && |blocks| <= B16
    ensures var s := GatherAll(t, blocks);
            && s.blocks == s.since == blocks && s.closedTarget == t.target && s.contaminated == t.contaminated
            && s.target == Add64(t.target, blocks[|blocks| - 1].result.sampleRate * 600)
  {
    hide L.Linked, L.Gather, L.FoldTen, Eligible, GatherAll, L.AllBefore;
    var n := |blocks| - 1;
    assert blocks[..n + 1] == blocks;
    TenMinutesFill(t, blocks, n);
    GatherAllStep(t, blocks, n);
    FoldTenNext(t, blocks, n);
  }

  // ---- Intervals into two hours ---------------------------------------------------------

  ghost function CascadeAll(w: L.TwoHour, parts: seq<L.Interval>): L.TwoHour {
    if parts == [] then w else L.FoldTwo(CascadeAll(w, parts[..|parts| - 1]), parts[|parts| - 1])
  }

  // With no interval open, any chained intervals that may be cascaded are all
  // gathered, so the twelfth completes two hours.
  lemma {:induction false} ChainedPartsGather(w: L.TwoHour, parts: seq<L.Interval>)
    requires w.parts == [] && L.Chained(parts)
    requires forall k :: 0 <= k < |parts| ==> L.Cascades(parts[k])
    ensures CascadeAll(w, parts) == w.(parts := parts)
  {
    if parts != [] {
      var n := |parts| - 1;
      if n > 0 { L.ChainedPrefix(parts); assert L.AbutsAt(parts, n); }
      ChainedPartsGather(w, parts[..n]);
      hide L.Cascades, L.Chained, L.Abuts;
      assert parts == parts[..n] + [parts[n]];
    }
  }
}
