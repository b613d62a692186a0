/** Assembly of whole cycles into 10/12-cycle Basic blocks, with the second slot
    that resynchronises the block grid at a UTC mark. */
module BasicTier {
  import opened Words
  import opened IntervalTypes

  // ---- The tier on lists of cycles --------------------------------------

  datatype Settings = Settings(generation: u32, sampleRate: u32, enable: bool, dcRemove: bool)

  // The open block, and the block restarted at a UTC mark while it was open.
  // `other` is the expected cycle count at an unlisted nominal frequency.
  datatype Basic = Basic(
    active: seq<Cycle>, resynchronized: bool, shadow: seq<Cycle>,
    settings: Settings, target: u64, targetValid: bool,
    nextResult: u32, nextCycle: u32, haveExpectation: bool,
    discontinuity: bool, sequence: u32, applySeen: bool, other: u8)

  function Initial(other: u8): Basic {
    Basic([], false, [], Settings(0, 32000, false, true), 0, false, 0, 0, false, true, 0, false, other)
  }

  function OnTarget(b: Basic, c: Context): Basic {
    b.(target := c.target, targetValid := c.targetValid, shadow := [])
  }

  function OnApply(b: Basic, c: Context): Basic {
    b.(settings := Settings(c.generation, c.sampleRate, c.enable, c.dcRemove), applySeen := c.apply,
       active := [], resynchronized := false, shadow := [], haveExpectation := false, discontinuity := true)
  }

  function Discard(b: Basic): Basic {
    b.(active := [], resynchronized := false, shadow := [], discontinuity := true)
  }

  predicate Broken(b: Basic, c: Cycle) {
    || c.gap
    || (b.haveExpectation && (c.sequence != b.nextResult || c.cycleSequence != b.nextCycle))
    || (b.active != [] && c.nominal != b.active[0].nominal)
  }

  // The carrying cycle is whole and starts the next block.
  function Admit(b: Basic, c: Cycle): Basic {
    (if Broken(b, c) then Discard(b) else b).(
      nextResult := Add32(c.sequence, 1), nextCycle := Add32(c.cycleSequence, 1), haveExpectation := true)
  }

  predicate Crosses(b: Basic, c: Cycle) { b.targetValid && c.firstSample >= b.target }

  // The first mark of the 600-second grid through `target` after the cycle.
  function NextTarget(target: u64, rate: u32, firstSample: u64): (u64, bool)
    requires target <= firstSample
  {
    var interval: nat := rate * 600;
    if interval == 0 then (target, false)
    else ((target + ((firstSample - target) / interval + 1) * interval) % B64, true)
  }

  function Advance(b: Basic, c: Cycle): Basic {
    if Crosses(b, c) then
      var (target, valid) := NextTarget(b.target, b.settings.sampleRate, c.firstSample);
      b.(target := target, targetValid := valid)
    else b
  }

  lemma AdvanceKeeps(b: Basic, c: Cycle)
    ensures Advance(b, c) == b.(target := Advance(b, c).target, targetValid := Advance(b, c).targetValid)
  {
  }

  // The cycle joins the open block, and the shadow block if one is live.
  function Join(b: Basic, c: Cycle): Basic {
    Advance(b, c).(
      active := b.active + [c],
      resynchronized := if b.active == [] then Crosses(b, c) else b.resynchronized,
      shadow :=
        if Crosses(b, c) && b.active != [] then [c]
        else if b.shadow != [] then b.shadow + [c]
        else [])
  }

  function TargetCycles(b: Basic): u8
    requires b.active != []
  {
    ExpectedCycles(b.active[0].nominal, b.other)
  }

  ghost function Describe(b: Basic): Result
    requires b.active != []
  {
    var last := b.active[|b.active| - 1];
    Result(Add32(b.sequence, 1), b.settings.generation, b.settings.sampleRate, b.settings.dcRemove,
           b.active[0].nominal, TargetCycles(b), b.active[0].firstSample, last.lastSample,
           CycleSamples(b.active) % B32, Fold(CycleStats(b.active)),
           AllLocked(b.active), AnyFallback(b.active), b.discontinuity, b.resynchronized, b.applySeen)
  }

  // The block closes; a live shadow takes its place.
  ghost function Close(b: Basic): (Basic, Option<Block>)
    requires b.active != []
  {
    if |b.active| < TargetCycles(b) then (b, None)
    else
      (b.(active := b.shadow, resynchronized := b.shadow != [], shadow := [],
          discontinuity := false, sequence := Add32(b.sequence, 1)),
       Some(Block(b.active, Describe(b))))
  }

  ghost function Accept(b: Basic, c: Cycle): (Basic, Option<Block>) {
    if !b.settings.enable then (b, None)
    else if c.generation != b.settings.generation then (Discard(b).(haveExpectation := false), None)
    else Close(Join(Admit(b, c), c))
  }

  ghost predicate AllLocked(cycles: seq<Cycle>) {
    forall k :: 0 <= k < |cycles| ==> cycles[k].locked
  }

  ghost predicate AnyFallback(cycles: seq<Cycle>) {
    exists k :: 0 <= k < |cycles| && cycles[k].fallback
  }

  // ---- Every reachable state ---------------------------------------------

  // Whole cycles in order, under one generation and one nominal frequency.
  ghost predicate Whole(cycles: seq<Cycle>) {
    forall k :: 0 <= k < |cycles| ==>
      && cycles[k].sequence == (cycles[0].sequence + k) % B32
      && cycles[k].cycleSequence == (cycles[0].cycleSequence + k) % B32
      && cycles[k].generation == cycles[0].generation
      && cycles[k].nominal == cycles[0].nominal
  }

  // A live shadow holds the newest cycles of the open block, at least one and
  // strictly fewer than the block.
  ghost predicate ShadowOf<T>(shadow: seq<T>, active: seq<T>) {
    shadow != [] ==> |shadow| < |active| && SuffixOf(shadow, active)
  }

  ghost predicate Expected(b: Basic) {
    b.active != [] ==>
      var last := b.active[|b.active| - 1];
      && b.haveExpectation
      && b.nextResult == Add32(last.sequence, 1)
      && b.nextCycle == Add32(last.cycleSequence, 1)
      && b.active[0].generation == b.settings.generation
  }

  ghost predicate Inv(b: Basic) {
    && Whole(b.active)
    && ShadowOf(b.shadow, b.active)
    && Expected(b)
    && (b.active != [] ==> |b.active| < TargetCycles(b))
  }

  // What a published block folds: exactly the expected number of whole cycles.
  ghost predicate Sound(block: Block, other: u8) {
    var r := block.result;
    && |block.cycles| == Max(1, ExpectedCycles(r.nominal, other))
    && Whole(block.cycles)
    && block.cycles[0].generation == r.generation && block.cycles[0].nominal == r.nominal
    && r.cycleCount == ExpectedCycles(r.nominal, other)
    && r.stats == Fold(CycleStats(block.cycles))
    && r.sampleCount == CycleSamples(block.cycles) % B32
    && r.firstSample == block.cycles[0].firstSample
    && r.lastSample == block.cycles[|block.cycles| - 1].lastSample
  }

  lemma WholeExtends(cycles: seq<Cycle>, c: Cycle)
    requires Whole(cycles)
    requires cycles != [] ==>
      var last := cycles[|cycles| - 1];
      && c.sequence == Add32(last.sequence, 1) && c.cycleSequence == Add32(last.cycleSequence, 1)
      && c.generation == last.generation && c.nominal == last.nominal
    ensures Whole(cycles + [c])
  {
    if cycles != [] {
      NextIndex(cycles[0].sequence, |cycles|, c.sequence);
      NextIndex(cycles[0].cycleSequence, |cycles|, c.cycleSequence);
    }
  }

  lemma WholeSuffix(part: seq<Cycle>, all: seq<Cycle>)
    requires Whole(all) && SuffixOf(part, all)
    ensures Whole(part)
  {
    var n := |all| - |part|;
    forall k | 0 <= k < |part|
      ensures part[k].sequence == (part[0].sequence + k) % B32
      ensures part[k].cycleSequence == (part[0].cycleSequence + k) % B32
      ensures part[k].generation == part[0].generation && part[k].nominal == part[0].nominal
    {
      assert part[k] == all[n + k] && part[0] == all[n];
      OffsetShift(all[0].sequence, n, k);
      OffsetShift(all[0].cycleSequence, n, k);
    }
  }

  // The target moves to the first mark of its own grid beyond the cycle.
  lemma NextTargetIsFirstBeyond(target: u64, rate: u32, firstSample: u64)
    requires target <= firstSample && rate > 0
    requires firstSample + rate * 600 < B64
    ensures var next: int := NextTarget(target, rate, firstSample).0;
            && next > firstSample >= next - rate * 600
            && (next - target) % (rate * 600) == 0
  {
    var interval: nat := rate * 600;
    var n := (firstSample - target) / interval;
    assert n * interval <= firstSample - target < n * interval + interval;
    assert (n + 1) * interval == n * interval + interval;
    var next: int := target + (n + 1) * interval;
    assert next % B64 == next;
    ModUnique(next - target, interval, n + 1, 0);
  }

  lemma CommandsPreserve(b: Basic, c: Context)
    requires Inv(b)
    ensures Inv(OnTarget(b, c)) && Inv(OnApply(b, c))
  {
  }

  lemma AdmitReady(b: Basic, c: Cycle)
    requires Inv(b) && c.generation == b.settings.generation
    ensures var t := Admit(b, c);
            && ShadowOf(t.shadow, t.active)
            && Whole(t.active + [c])
            && (t.active != [] ==> |t.active| < TargetCycles(t) && t.active[0].nominal == c.nominal)
  {
    var t := Admit(b, c);
    if t.active != [] {
      assert t.active[|t.active| - 1].nominal == t.active[0].nominal;
    }
    WholeExtends(t.active, c);
  }

  lemma JoinReady(b: Basic, c: Cycle)
    requires ShadowOf(b.shadow, b.active)
    ensures var t := Join(b, c);
            && ShadowOf(t.shadow, t.active)
            && t.active == b.active + [c]
  {
    if b.active != [] {
      SuffixAppend(b.shadow, b.active, c);
    }
  }

  // The open block just after a cycle joined it.
  ghost predicate Joined(b: Basic) {
    && b.active != []
    && Whole(b.active)
    && ShadowOf(b.shadow, b.active)
    && Expected(b)
    && |b.active| <= Max(1, TargetCycles(b))
  }

  lemma JoinedReady(b: Basic, c: Cycle)
    requires Inv(b) && c.generation == b.settings.generation
    ensures Joined(Join(Admit(b, c), c))
  {
    AdmitReady(b, c);
    JoinReady(Admit(b, c), c);
    WholeHead(Admit(b, c).active + [c]);
  }

  lemma ClosePreserves(b: Basic)
    requires Joined(b)
    ensures Inv(Close(b).0)
    ensures Close(b).1.Some? ==> Sound(Close(b).1.value, b.other)
  {
    hide Whole;
    WholeHead(b.active);
    WholeEmpty();
    if b.shadow != [] {
      WholeSuffix(b.shadow, b.active);
      WholeHead(b.shadow);
    }
  }

  // Neither block ever outgrows its 8-bit cycle counter.
  lemma BlocksAreShort(b: Basic, c: Cycle)
    requires Inv(b)
    ensures |Admit(b, c).active| < 255 && |Admit(b, c).shadow| < 255
    ensures var joined := Join(Admit(b, c), c);
            joined.active != [] && joined.active[|joined.active| - 1] == c
  {
  }

  // The sequence number counts the published blocks.
  ghost predicate Numbered(before: Basic, after: (Basic, Option<Block>)) {
    && after.0.other == before.other
    && after.0.applySeen == before.applySeen
    && match after.1
       case None => after.0.sequence == before.sequence
       case Some(block) => block.result.sequence == after.0.sequence == Add32(before.sequence, 1)
  }

  lemma CloseNumbers(b: Basic)
    requires b.active != []
    ensures Numbered(b, Close(b))
  {
  }

  lemma JoinKeeps(b: Basic, c: Cycle)
    ensures Join(Admit(b, c), c).other == b.other
    ensures Join(Admit(b, c), c).sequence == b.sequence
    ensures Join(Admit(b, c), c).applySeen == b.applySeen
  {
    assert Advance(Admit(b, c), c).sequence == b.sequence;
  }

  lemma DiscardKeeps(b: Basic)
    ensures Inv(Discard(b).(haveExpectation := false))
    ensures Numbered(b, (Discard(b).(haveExpectation := false), None))
  {
  }

  lemma AcceptPreserves(b: Basic, c: Cycle)
    requires Inv(b)
    ensures Inv(Accept(b, c).0)
    ensures Numbered(b, Accept(b, c))
    ensures Accept(b, c).1.Some? ==> Sound(Accept(b, c).1.value, b.other)
  {
    hide Sound;
    DiscardKeeps(b);
    if b.settings.enable && c.generation == b.settings.generation {
      JoinedReady(b, c);
      var joined := Join(Admit(b, c), c);
      ClosePreserves(joined);
      JoinKeeps(b, c);
      CloseNumbers(joined);
      hide Joined, Inv, Join, Admit, Close;
    }
  }

  lemma WholeEmpty()
    ensures Whole([])
  {
  }

  lemma WholeHead(cycles: seq<Cycle>)
    requires Whole(cycles) && cycles != []
    ensures var last := cycles[|cycles| - 1];
            last.generation == cycles[0].generation && last.nominal == cycles[0].nominal
  {
  }
}
