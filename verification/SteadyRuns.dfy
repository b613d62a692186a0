/** Runs of evenly spaced cycles through the whole interval tree: the runs
    that reach states in which the tree departs from what its comments promise,
    and one beside them that does not. */
module SteadyRuns {
  import opened Words
  import opened IntervalTypes
  import B = BasicTier
  import A = AggregateTier
  import L = LongTiers
  import M = TwoHourMarks
  import opened IntervalTree

  // ---- One packet and the deferred work behind it --------------------------------

  ghost function Pass(s: State, log: seq<Record>, input: Option<Packet>): (State, seq<Record>) {
    var (t, more) := Invoke(s, input);
    (t, log + more)
  }

  ghost function Rest(s: State, log: seq<Record>): (State, seq<Record>) {
    var (s1, log1) := Pass(s, log, None);
    var (s2, log2) := Pass(s1, log1, None);
    Pass(s2, log2, None)
  }

  ghost function Fed(s: State, log: seq<Record>, p: Packet): (State, seq<Record>) {
    var (t, more) := Pass(s, log, Some(p));
    Rest(t, more)
  }

  function Calls(p: Packet): seq<Option<Packet>> { [Some(p)] + [None] + [None] + [None] }

  lemma RunNext(other: u8, inputs: seq<Option<Packet>>, input: Option<Packet>)
    ensures Run(other, inputs + [input]) == Pass(Run(other, inputs).0, Run(other, inputs).1, input)
  {
    assert (inputs + [input])[..|inputs|] == inputs;
    hide Invoke;
  }

  lemma RunFed(other: u8, inputs: seq<Option<Packet>>, p: Packet)
    ensures Run(other, inputs + Calls(p)) == Fed(Run(other, inputs).0, Run(other, inputs).1, p)
  {
    hide Run, Pass;
    RunNext(other, inputs, Some(p));
    RunNext(other, inputs + [Some(p)], None);
    RunNext(other, inputs + [Some(p)] + [None], None);
    RunNext(other, inputs + [Some(p)] + [None] + [None], None);
    assert inputs + Calls(p) == inputs + [Some(p)] + [None] + [None] + [None];
  }

  // Neither the target nor the settings change with the packet.
  predicate Silent(s: State, c: Context) { c.targetUpdate == s.ten.updateSeen && c.apply == s.basic.applySeen }

  // A cycle that closes no block only reaches the block assembly.
  lemma FedObserved(s: State, log: seq<Record>, p: Packet)
    requires s.pending == NONE && B.Accept(Observed(s, p.context).basic, p.cycle).1.None?
    ensures var t := Observed(s, p.context);
            Fed(s, log, p) == (t.(basic := B.Accept(t.basic, p.cycle).0), log)
  {
    hide B.Accept;
    var t := Observed(s, p.context);
    assert log + [] == log;
    assert t.pending == NONE;
    assert Invoke(s, Some(p)) == (t.(basic := B.Accept(t.basic, p.cycle).0), []);
    hide Observed;
  }

  lemma FedQuiet(s: State, log: seq<Record>, p: Packet)
    requires s.pending == NONE && Silent(s, p.context) && B.Accept(s.basic, p.cycle).1.None?
    ensures Fed(s, log, p) == (s.(basic := B.Accept(s.basic, p.cycle).0), log)
  {
    assert Observed(s, p.context) == s;
    FedObserved(s, log, p);
    hide B.Accept, Fed, Observed;
  }

  // The passes that change neither the ten-minute nor the two-hour tier.
  ghost predicate Kept(s: State, log: seq<Record>, t: State, all: seq<Record>) {
    t.basic == s.basic && t.ten == s.ten && t.two == s.two && Intervals(all) == Intervals(log)
  }

  ghost predicate TenDone(s: State, log: seq<Record>, t: State, all: seq<Record>) {
    && t.basic == s.basic && t.ten == L.FinaliseTen(s.ten)
    && t.two == L.FoldTwo(s.two, L.IntervalOf(s.ten))
    && Intervals(all) == Intervals(log) + [L.IntervalOf(s.ten)]
  }

  ghost predicate TwoDone(s: State, log: seq<Record>, t: State, all: seq<Record>) {
    t.basic == s.basic && t.ten == s.ten && t.two.parts == [] && Intervals(all) == Intervals(log)
  }

  lemma AggregatePass(s: State, log: seq<Record>)
    requires s.pending.aggregate
    ensures var (t, all) := Pass(s, log, None);
            && Kept(s, log, t, all)
            && t.pending == s.pending.(aggregate := false, openTen := t.pending.openTen)
            && (s.pending.ten ==> t.pending.openTen == s.pending.openTen)
  {
    hide Intervals, Consume;
    LogAppend(log, FinaliseAggregate(s).1[0]);
  }

  lemma TenPass(s: State, log: seq<Record>)
    requires s.pending.ten && !s.pending.aggregate
    ensures var (t, all) := Pass(s, log, None);
            && TenDone(s, log, t, all)
            && t.pending == s.pending.(ten := false, two := |t.two.parts| == L.INTERVALS, openTwo := t.pending.openTwo)
            && (t.pending.two ==> !t.pending.openTwo)
  {
    hide Intervals, Consume, L.FoldTwo, L.Cascades;
    LogAppend(log, TenMinuteRecord(L.IntervalOf(s.ten)));
  }

  lemma TwoPass(s: State, log: seq<Record>)
    requires s.pending.two && !s.pending.ten && !s.pending.aggregate
    ensures var (t, all) := Pass(s, log, None);
            TwoDone(s, log, t, all) && t.pending == s.pending.(two := false)
  {
    hide Intervals, Consume;
    LogAppend(log, FinaliseTwo(s).1[0]);
  }

  lemma PreviewPass(s: State, log: seq<Record>)
    requires Idle(s)
    ensures var (t, all) := Pass(s, log, None);
            && Kept(s, log, t, all)
            && t.pending == if s.pending.openTen then s.pending.(openTen := false) else s.pending.(openTwo := false)
  {
    hide Intervals, Consume;
    if s.pending.openTen || s.pending.openTwo {
      LogAppend(log, Invoke(s, None).1[0]);
    } else {
      assert log + [] == log;
    }
  }

  // What the passes behind a packet do when no ten-minute interval is armed.
  lemma RestKeeps(s: State, log: seq<Record>)
    requires s.pending == NONE.(aggregate := s.pending.aggregate)
    ensures var (t, all) := Rest(s, log); Kept(s, log, t, all) && t.pending == NONE
  {
    hide Pass, Intervals;
    var (s1, log1) := Pass(s, log, None);
    if s.pending.aggregate { AggregatePass(s, log); } else { PreviewPass(s, log); }
    var (s2, log2) := Pass(s1, log1, None);
    PreviewPass(s1, log1);
    PreviewPass(s2, log2);
  }

  // ---- and when one is ------------------------------------------------------------

  ghost predicate Closed(s: State, log: seq<Record>, t: State, all: seq<Record>) {
    && t.basic == s.basic && t.ten == L.FinaliseTen(s.ten)
    && t.two.parts == M.Open(L.FoldTwo(s.two, L.IntervalOf(s.ten)).parts)
    && Intervals(all) == Intervals(log) + [L.IntervalOf(s.ten)]
  }

  lemma AfterTen(s: State, log: seq<Record>, s1: State, log1: seq<Record>)
    requires TenDone(s, log, s1, log1)
    requires s1.pending == NONE.(two := |s1.two.parts| == L.INTERVALS, openTwo := s1.pending.openTwo)
    requires s1.pending.two ==> !s1.pending.openTwo
    ensures var (s2, log2) := Pass(s1, log1, None);
            Closed(s, log, s2, log2) && s2.pending == NONE
  {
    hide Pass, Intervals, L.FoldTwo, L.FinaliseTen;
    if s1.pending.two { TwoPass(s1, log1); } else { PreviewPass(s1, log1); }
  }

  lemma RestCloses(s: State, log: seq<Record>)
    requires s.pending == NONE.(aggregate := s.pending.aggregate, ten := true)
    ensures var (t, all) := Rest(s, log); Closed(s, log, t, all) && t.pending == NONE
  {
    hide Pass, Intervals, L.FoldTwo, L.FinaliseTen;
    var (s1, log1) := Pass(s, log, None);
    var (s2, log2) := Pass(s1, log1, None);
    if s.pending.aggregate {
      AggregatePass(s, log);
      TenPass(s1, log1);
      AfterTen(s1, log1, s2, log2);
    } else {
      TenPass(s, log);
      AfterTen(s, log, s1, log1);
      PreviewPass(s2, log2);
    }
  }

  lemma FedConsume(s: State, log: seq<Record>, p: Packet)
    requires s.pending == NONE && Silent(s, p.context) && B.Accept(s.basic, p.cycle).1.Some?
    ensures var (basic, closed) := B.Accept(s.basic, p.cycle);
            var t := Distribute(s.(basic := basic), closed.value);
            var all := log + [BasicRecord(closed.value)];
            Fed(s, log, p) == Rest(t, all) && Intervals(all) == Intervals(log)
  {
    hide B.Accept, Distribute, Rest, Intervals;
    assert Observed(s, p.context) == s;
    LogAppend(log, BasicRecord(B.Accept(s.basic, p.cycle).1.value));
  }

  // A packet that closes block `b` is felt by the ten-minute tier, and by the
  // two-hour tier if the ten-minute target is reached.
  ghost predicate Folded(s: State, log: seq<Record>, b: Block, t: State, all: seq<Record>) {
    var ten := L.FoldTen(s.ten, b);
    && t.pending == NONE
    && if !L.Reaches(s.ten, b.result) then
         t.ten == ten && t.two == s.two && Intervals(all) == Intervals(log)
       else
         && t.ten == L.FinaliseTen(ten)
         && t.two.parts == M.Open(L.FoldTwo(s.two, L.IntervalOf(ten)).parts)
         && Intervals(all) == Intervals(log) + [L.IntervalOf(ten)]
  }

  lemma FedBlock(s: State, log: seq<Record>, p: Packet)
    requires s.pending == NONE && Silent(s, p.context) && B.Accept(s.basic, p.cycle).1.Some?
    ensures var (basic, closed) := B.Accept(s.basic, p.cycle);
            var (t, all) := Fed(s, log, p);
            t.basic == basic && Folded(s, log, closed.value, t, all)
  {
    hide B.Accept, Rest, Intervals, L.FoldTen, L.FoldTwo, L.FinaliseTen, L.Reaches, A.Fold, Fed;
    FedConsume(s, log, p);
    var (basic, closed) := B.Accept(s.basic, p.cycle);
    var t, all := Distribute(s.(basic := basic), closed.value), log + [BasicRecord(closed.value)];
    if L.Reaches(s.ten, closed.value.result) { RestCloses(t, all); } else { RestKeeps(t, all); }
  }

  // ---- Evenly spaced cycles ---------------------------------------------------------

  // Cycles of `step` samples at `rate` samples a second, numbered and placed
  // from zero, with the clock set to sample zero.
  datatype Grid = Grid(step: nat, rate: u32)

  const LIMIT: nat := 1_000_000

  predicate Fits(g: Grid) { 0 < g.step <= 1000 && 10_000 < g.rate <= 32_000 }

  function Start(g: Grid, k: nat): nat { k * g.step }

  lemma Starts(g: Grid, k: nat, n: nat)
    ensures Start(g, k + n) == Start(g, k) + n * g.step
  {
    assert (k + n) * g.step == k * g.step + n * g.step;
  }

  lemma StartFits(g: Grid, k: nat)
    requires Fits(g) && k <= LIMIT
    ensures Start(g, k) <= 1_000_000_000
  {
    MulLeBoth(k, LIMIT, g.step, 1000);
  }

  lemma StartGrows(g: Grid, k: nat, m: nat)
    requires k <= m
    ensures Start(g, k) <= Start(g, m)
  {
    MulLe(k, m, g.step);
  }

  function CycleAt(g: Grid, k: nat): (c: Cycle)
    requires Fits(g) && k < LIMIT
    ensures c.sequence == c.cycleSequence == k && c.firstSample == Start(g, k) && c.sampleCount == g.step
    ensures c.lastSample == Start(g, k) + g.step - 1
    ensures c.generation == 1 && c.nominal == 50 && c.locked && !c.fallback && !c.gap
  {
    StartFits(g, k);
    Cycle(k, k, 1, 50, Start(g, k), Start(g, k) + g.step - 1, g.step, false, true, false, Stats(0, 0, 0, 0))
  }

  function Cycles(g: Grid, from: nat, to: nat): (s: seq<Cycle>)
    requires Fits(g) && from <= to <= LIMIT
    ensures |s| == to - from
    ensures forall j :: 0 <= j < |s| ==> s[j] == CycleAt(g, from + j)
  {
    seq(to - from, j requires 0 <= j < to - from => CycleAt(g, from + j))
  }

  lemma CyclesNext(g: Grid, from: nat, to: nat)
    requires Fits(g) && from <= to < LIMIT
    ensures Cycles(g, from, to) + [CycleAt(g, to)] == Cycles(g, from, to + 1)
    ensures Cycles(g, to, to) == [] && Cycles(g, to, to + 1) == [CycleAt(g, to)] && Cycles(g, to + 1, to + 1) == []
  {
  }

  function PacketAt(g: Grid, k: nat): Packet
    requires Fits(g) && k < LIMIT
  {
    Packet(CycleAt(g, k), Context(1, g.rate, true, false, true, 0, true, true))
  }

  function Inputs(g: Grid, k: nat): seq<Option<Packet>>
    requires Fits(g) && k <= LIMIT
  {
    if k == 0 then [] else Inputs(g, k - 1) + Calls(PacketAt(g, k - 1))
  }

  // ---- The block assembly ------------------------------------------------------------

  function Period(g: Grid): nat { g.rate * 600 }

  // The open block holds cycles from, ..., k - 1; `mark` is the cycle at which
  // the block beside it was restarted, `from + 10` if none was.
  ghost predicate Holds(b: B.Basic, g: Grid, from: nat, mark: nat, k: nat, target: nat, first: bool)
    requires Fits(g) && k <= LIMIT
  {
    && from <= k < from + 10 && from < mark && (mark < k || mark == from + 10)
    && b.active == Cycles(g, from, k) && b.shadow == (if mark < k then Cycles(g, mark, k) else [])
    && b.settings == B.Settings(1, g.rate, true, false) && b.applySeen && b.other == 0
    && b.target == target && b.targetValid && b.discontinuity == first
    && (if k == 0 then !b.haveExpectation else b.haveExpectation && b.nextResult == k && b.nextCycle == k)
  }

  function NextMark(g: Grid, from: nat, mark: nat, k: nat, target: nat): nat {
    if Start(g, k) >= target && from < k then k else mark
  }

  function NextTarget(g: Grid, k: nat, target: nat): nat {
    if Start(g, k) >= target then target + Period(g) else target
  }

  lemma NextGridTarget(g: Grid, k: nat, target: u64)
    requires Fits(g) && k < LIMIT && target <= Start(g, k) < target + Period(g)
    ensures Start(g, k) < B64 && B.NextTarget(target, g.rate, Start(g, k)) == (target + Period(g), true)
  {
    StartFits(g, k);
    DivUnique(Start(g, k) - target, Period(g), 0);
    hide Start;
  }

  lemma Admits(b: B.Basic, g: Grid, from: nat, mark: nat, k: nat, target: nat, first: bool)
    requires Fits(g) && k < LIMIT && Holds(b, g, from, mark, k, target, first)
    ensures !B.Broken(b, CycleAt(g, k))
    ensures B.Admit(b, CycleAt(g, k)) == b.(nextResult := k + 1, nextCycle := k + 1, haveExpectation := true)
  {
    if from < k { assert b.active[0] == CycleAt(g, from + 0); }
    hide Cycles, CycleAt, Start;
    assert !B.Broken(b, CycleAt(g, k));
  }

  lemma Advances(b: B.Basic, g: Grid, k: nat, target: nat)
    requires Fits(g) && k < LIMIT && b.target == target && b.targetValid && b.settings.sampleRate == g.rate
    requires Start(g, k) < target + Period(g)
    ensures B.Crosses(b, CycleAt(g, k)) <==> Start(g, k) >= target
    ensures 0 <= NextTarget(g, k, target) < B64
    ensures B.Advance(b, CycleAt(g, k)) == b.(target := NextTarget(g, k, target))
  {
    if Start(g, k) >= target { NextGridTarget(g, k, target); StartFits(g, k); }
    hide Start, CycleAt, B.NextTarget;
  }

  lemma Joins(b: B.Basic, g: Grid, from: nat, mark: nat, k: nat, target: nat, first: bool)
    requires Fits(g) && k < LIMIT && Holds(b, g, from, mark, k, target, first)
    requires Start(g, k) < target + Period(g)
    requires from < k && Start(g, k) >= target ==> mark == from + 10
    ensures var c := CycleAt(g, k);
            var s := B.Join(B.Admit(b, c), c);
            var after := NextMark(g, from, mark, k, target);
            && s.active == Cycles(g, from, k + 1) && s.active != []
            && s.shadow == (if after <= k then Cycles(g, after, k + 1) else [])
            && s.settings == b.settings && s.applySeen && s.other == 0
            && s.target == NextTarget(g, k, target) && s.targetValid && s.discontinuity == first
            && s.haveExpectation && s.nextResult == k + 1 && s.nextCycle == k + 1
            && s.sequence == b.sequence
  {
    hide B.Broken, B.Advance, B.Crosses, Start, Cycles, CycleAt, NextTarget, B.Admit;
    Admits(b, g, from, mark, k, target, first);
    CyclesNext(g, from, k);
    if mark < k { CyclesNext(g, mark, k); }
    CyclesNext(g, k, k);
    Advances(B.Admit(b, CycleAt(g, k)), g, k, target);
  }

  // ---- One steady block ---------------------------------------------------------------

  lemma {:induction false} SteadySamples(g: Grid, from: nat, to: nat)
    requires Fits(g) && from <= to <= LIMIT
    ensures CycleSamples(Cycles(g, from, to)) == (to - from) * g.step
  {
    if from == to {
      assert Cycles(g, from, to) == [];
    } else {
      hide CycleSamples, Cycles, CycleAt, Fits;
      SteadySamples(g, from, to - 1);
      CyclesNext(g, from, to - 1);
      CycleSamplesAppend(Cycles(g, from, to - 1), CycleAt(g, to - 1));
      OneMore(to - 1 - from, g.step);
    }
  }

  lemma OneMore(n: nat, x: nat)
    ensures (n + 1) * x == n * x + x
  {
  }

  ghost predicate Steady(g: Grid, b: Block, from: nat, first: bool)
    requires Fits(g) && from + 10 <= LIMIT
  {
    var r := b.result;
    && b.cycles == Cycles(g, from, from + 10)
    && r.generation == 1 && r.sampleRate == g.rate && !r.dcRemove && r.nominal == 50 && r.cycleCount == 10
    && r.firstSample == Start(g, from) && r.lastSample == Start(g, from + 10) - 1 && r.sampleCount == 10 * g.step
    && r.locked && !r.fallback && r.first == first
  }

  lemma Describes(s: B.Basic, g: Grid, from: nat)
    requires Fits(g) && from + 10 <= LIMIT && s.active == Cycles(g, from, from + 10)
    requires s.settings == B.Settings(1, g.rate, true, false) && s.other == 0
    ensures s.active != [] && B.TargetCycles(s) == 10
    ensures Steady(g, Block(s.active, B.Describe(s)), from, s.discontinuity)
    ensures B.Describe(s).sequence == Add32(s.sequence, 1)
  {
    hide CycleSamples, Fold, CycleStats, Start, CycleAt, B.AllLocked, B.AnyFallback, Cycles;
    BlockSamples(g, from);
    Starts(g, from + 9, 1);
    AllSteady(g, from);
    assert s.active[0] == CycleAt(g, from + 0) && s.active[9] == CycleAt(g, from + 9);
    hide Fits;
  }

  lemma BlockSamples(g: Grid, from: nat)
    requires Fits(g) && from + 10 <= LIMIT
    ensures CycleSamples(Cycles(g, from, from + 10)) % B32 == 10 * g.step
  {
    SteadySamples(g, from, from + 10);
    hide CycleSamples, Cycles;
  }

  lemma AllSteady(g: Grid, from: nat)
    requires Fits(g) && from + 10 <= LIMIT
    ensures B.AllLocked(Cycles(g, from, from + 10)) && !B.AnyFallback(Cycles(g, from, from + 10))
  {
    hide CycleAt;
  }

  // One more cycle: the block stays open, or is the next steady block and the
  // block restarted at a mark inside it takes its place.
  lemma Accepts(b: B.Basic, g: Grid, from: nat, mark: nat, k: nat, target: nat, first: bool)
    requires Fits(g) && k < LIMIT && from + 10 <= LIMIT && Holds(b, g, from, mark, k, target, first)
    requires Start(g, k) < target + Period(g)
    requires from < k && Start(g, k) >= target ==> mark == from + 10
    ensures var (s, closed) := B.Accept(b, CycleAt(g, k));
            var after := NextMark(g, from, mark, k, target);
            if k + 1 < from + 10 then closed.None? && Holds(s, g, from, after, k + 1, NextTarget(g, k, target), first)
            else
              && closed.Some? && Steady(g, closed.value, from, first)
              && closed.value.result.sequence == Add32(b.sequence, 1)
              && Holds(s, g, after, after + 10, k + 1, NextTarget(g, k, target), false)
  {
    hide B.Join, B.Admit, B.Describe, Start, Steady, Cycles, CycleAt, B.TargetCycles, NextTarget;
    Joins(b, g, from, mark, k, target, first);
    var s := B.Join(B.Admit(b, CycleAt(g, k)), CycleAt(g, k));
    OpenTarget(s, g, from, k + 1);
    if k + 1 == from + 10 { Describes(s, g, from); }
    CyclesNext(g, k, k);
  }

  lemma OpenTarget(s: B.Basic, g: Grid, from: nat, k: nat)
    requires Fits(g) && from < k <= LIMIT && s.active == Cycles(g, from, k)
    ensures s.active != [] && |s.active| == k - from && B.TargetCycles(s) == 10
  {
    assert s.active[0] == CycleAt(g, from + 0);
  }

  // ---- The ten-minute tier ---------------------------------------------------------------

  ghost predicate SteadyFrom(g: Grid, blocks: seq<Block>, base: nat)
    requires Fits(g) && base + 10 * |blocks| <= LIMIT
  {
    forall j :: 0 <= j < |blocks| ==> Steady(g, blocks[j], base + 10 * j, false)
  }

  // n steady blocks since the last ten-minute interval, none of them omitted
  // but for the wrap of the 16-bit counter.
  ghost predicate TenHolds(t: L.TenMinute, g: Grid, base: nat, next: nat, target: nat)
    requires Fits(g) && next <= LIMIT
  {
    && t.targetValid && t.updateSeen && !t.contaminated && t.target == target
    && base + 10 * |t.since| == next
    && (t.since == [] ==> t.blocks == [])
    && (t.since != [] ==> t.blocks != [] && SuffixOf(t.blocks, t.since))
    && SteadyFrom(g, t.since, base)
  }

  lemma SteadyEligible(g: Grid, b: Block, from: nat)
    requires Fits(g) && from + 10 <= LIMIT && Steady(g, b, from, false)
    ensures Eligible(b.result) && NextFirst(b.result) == Start(g, from + 10)
  {
    Starts(g, from, 10);
    StartFits(g, from + 10);
    hide Start;
  }

  lemma SteadyLast(t: L.TenMinute, g: Grid, base: nat, next: nat, target: nat)
    requires Fits(g) && next <= LIMIT && TenHolds(t, g, base, next, target) && t.since != []
    ensures next >= base + 10
    ensures Steady(g, t.blocks[|t.blocks| - 1], next - 10, false)
    ensures SameConfiguration(t.blocks[0].result, t.since[|t.since| - 1].result)
    ensures t.blocks[|t.blocks| - 1] == t.since[|t.since| - 1]
  {
    var n := |t.since|;
    assert Steady(g, t.since[n - 1], base + 10 * (n - 1), false);
    assert Steady(g, t.since[0], base + 10 * 0, false);
    var j := n - |t.blocks|;
    assert t.blocks[0] == t.since[j];
    assert Steady(g, t.since[j], base + 10 * j, false);
    hide Cycles, Start;
  }

  // The newest block and the next one, by number and on the sample axis.
  lemma SteadyContinues(g: Grid, last: Block, b: Block, next: nat, previous: u32, n: nat)
    requires Fits(g) && 10 <= next && next + 10 <= LIMIT && n > 0
    requires Steady(g, last, next - 10, false) && Steady(g, b, next, false)
    requires last.result.sequence == (previous + n) % B32 && b.result.sequence == (previous + 1 + n) % B32
    ensures L.Continues(last.result, b.result) && SameConfiguration(last.result, b.result)
  {
    SteadyEligible(g, last, next - 10);
    hide Start, Cycles, Eligible, NextFirst;
    ModAdd(previous + n, 1, B32);
  }

  lemma NewestNumber(since: seq<Block>, previous: u32)
    requires L.NumberedAfter(since, previous) && since != []
    ensures since[|since| - 1].result.sequence == (previous + |since|) % B32
  {
  }

  lemma TenFacts(t: L.TenMinute, g: Grid, base: nat, next: nat, target: nat)
    requires Fits(g) && next <= LIMIT && TenHolds(t, g, base, next, target) && L.InvTen(t)
    ensures L.NumberedAfter(t.since, t.previous) && (t.since == [] <==> t.blocks == [])
    ensures t.blocks != [] ==> SuffixOf(t.blocks, t.since)
  {
  }

  lemma Unbroken(t: L.TenMinute, g: Grid, base: nat, next: nat, target: nat, b: Block)
    requires Fits(g) && next + 10 <= LIMIT && TenHolds(t, g, base, next, target) && L.InvTen(t)
    requires Steady(g, b, next, false) && b.result.sequence == (t.previous + 1 + |t.since|) % B32
    ensures Eligible(b.result) && !L.Breaks(t, b.result)
  {
    hide Eligible, L.Continues, L.InvTen, TenHolds, L.NumberedAfter, Start, Cycles, Steady, L.Empty, Fits, SuffixOf;
    SteadyEligible(g, b, next);
    TenFacts(t, g, base, next, target);
    if t.since != [] {
      SteadyLast(t, g, base, next, target);
      var last := t.since[|t.since| - 1];
      NewestNumber(t.since, t.previous);
      SteadyContinues(g, last, b, next, t.previous, |t.since|);
    }
  }

  lemma GatherUnbroken(t: L.TenMinute, b: Block)
    requires t.targetValid && Eligible(b.result) && !L.Breaks(t, b.result)
    requires t.blocks != [] ==> SuffixOf(t.blocks, t.since)
    ensures var u := L.FoldTen(t, b);
            && u.since == t.since + [b] && u.blocks != [] && SuffixOf(u.blocks, u.since)
            && u.contaminated == t.contaminated && u.targetValid && u.updateSeen == t.updateSeen
            && u.target == if L.Reaches(t, b.result) then Add64(t.target, b.result.sampleRate * 600) else t.target
  {
    hide L.Breaks, Eligible, L.Empty;
    assert SuffixOf([b], t.since + [b]);
    if t.blocks != [] { SuffixAppend(t.blocks, t.since, b); }
    L.GatherFields(t, b);
    L.FoldTenFields(t, b);
    ArmTarget(L.Gather(t, b), b.result);
    hide SuffixOf, L.Reaches;
  }

  lemma ArmTarget(t: L.TenMinute, r: Result)
    ensures L.Arm(t, r).target == if L.Reaches(t, r) then Add64(t.target, r.sampleRate * 600) else t.target
  {
    hide L.Reaches;
  }

  lemma SteadyExtends(g: Grid, blocks: seq<Block>, base: nat, b: Block)
    requires Fits(g) && base + 10 * |blocks| + 10 <= LIMIT && SteadyFrom(g, blocks, base)
    requires Steady(g, b, base + 10 * |blocks|, false)
    ensures SteadyFrom(g, blocks + [b], base)
  {
    hide Steady;
  }

  lemma TenGathers(t: L.TenMinute, g: Grid, base: nat, next: nat, target: nat, b: Block)
    requires Fits(g) && next + 10 <= LIMIT && TenHolds(t, g, base, next, target) && L.InvTen(t)
    requires Steady(g, b, next, false) && b.result.sequence == (t.previous + 1 + |t.since|) % B32
    ensures var u := L.FoldTen(t, b);
            && u.since == t.since + [b] && u.blocks != [] && SuffixOf(u.blocks, u.since)
            && !u.contaminated && u.targetValid && u.updateSeen
            && SteadyFrom(g, u.since, base)
            && (L.Reaches(t, b.result) <==> Start(g, next + 10) > target)
            && u.target == if L.Reaches(t, b.result) then Add64(target, g.rate * 600) else target
  {
    hide L.InvTen, L.Breaks, SuffixOf, SteadyFrom, Start, Cycles, L.FoldTen, L.Empty;
    Unbroken(t, g, base, next, target, b);
    TenFacts(t, g, base, next, target);
    SteadyExtends(g, t.since, base, b);
    GatherUnbroken(t, b);
    hide Eligible;
  }

  // An aligned interval of exactly these blocks, the first at cycle `base`.
  ghost predicate SteadyInterval(i: L.Interval, g: Grid, base: nat, n: nat)
    requires Fits(g) && base + 10 * n <= LIMIT
  {
    L.Aligned(i) && |i.since| == n > 0 && SteadyFrom(g, i.since, base) && i.blocks != [] && SuffixOf(i.blocks, i.since)
  }

  lemma TenFolds(t: L.TenMinute, g: Grid, base: nat, next: nat, target: nat, b: Block, after: nat)
    requires Fits(g) && next + 10 <= LIMIT && after <= LIMIT && TenHolds(t, g, base, next, target) && L.InvTen(t)
    requires Steady(g, b, next, false) && b.result.sequence == (t.previous + 1 + |t.since|) % B32
    requires target + Period(g) < B64
    ensures var u := L.FoldTen(t, b);
            if Start(g, next + 10) <= target then !L.Reaches(t, b.result) && TenHolds(u, g, base, next + 10, target)
            else
              && L.Reaches(t, b.result)
              && TenHolds(L.FinaliseTen(u), g, after, after, target + Period(g))
              && SteadyInterval(L.IntervalOf(u), g, base, |t.since| + 1)
  {
    hide L.InvTen, SuffixOf, Start, L.FoldTen, L.Reaches, Steady;
    TenGathers(t, g, base, next, target, b);
  }

  // ---- Whole runs ---------------------------------------------------------------------------

  ghost function RunTo(g: Grid, k: nat): (State, seq<Record>)
    requires Fits(g) && k <= LIMIT
  {
    Run(0, Inputs(g, k))
  }

  lemma RunToNext(g: Grid, k: nat)
    requires Fits(g) && k < LIMIT
    ensures RunTo(g, k + 1) == Fed(RunTo(g, k).0, RunTo(g, k).1, PacketAt(g, k))
  {
    hide Run, Fed, PacketAt, Calls;
    RunFed(0, Inputs(g, k), PacketAt(g, k));
  }

  predicate Ready(s: State) { s.pending == NONE && s.ten.updateSeen && s.basic.applySeen }

  // Whether the cycle may be the next: no mark was missed, and it does not pass
  // a second one within a block.
  ghost predicate InTime(g: Grid, from: nat, mark: nat, k: nat, target: nat) {
    && Start(g, k) < target + Period(g)
    && (from < k && Start(g, k) >= target ==> mark == from + 10)
  }

  // A cycle that leaves the block open changes nothing else.
  lemma QuietStep(g: Grid, k: nat, from: nat, mark: nat, target: nat, first: bool)
    requires Fits(g) && k + 1 < from + 10 <= LIMIT && InTime(g, from, mark, k, target)
    requires Ready(RunTo(g, k).0) && Holds(RunTo(g, k).0.basic, g, from, mark, k, target, first)
    ensures var ((s, log), (t, all)) := (RunTo(g, k), RunTo(g, k + 1));
            && all == log && t == s.(basic := t.basic) && Ready(t)
            && Holds(t.basic, g, from, NextMark(g, from, mark, k, target), k + 1, NextTarget(g, k, target), first)
  {
    hide RunTo, Fed, B.Accept, Cycles, Start, NextMark, NextTarget;
    var (s, log) := RunTo(g, k);
    RunToNext(g, k);
    Accepts(s.basic, g, from, mark, k, target, first);
    FedQuiet(s, log, PacketAt(g, k));
  }

  lemma {:induction false} QuietSteps(g: Grid, k: nat, m: nat, from: nat, mark: nat, target: nat, first: bool)
    requires Fits(g) && k <= m < from + 10 <= LIMIT
    requires m > k ==> Start(g, m - 1) < target
    requires Ready(RunTo(g, k).0) && Holds(RunTo(g, k).0.basic, g, from, mark, k, target, first)
    ensures var ((s, log), (t, all)) := (RunTo(g, k), RunTo(g, m));
            && all == log && t == s.(basic := t.basic) && Ready(t)
            && Holds(t.basic, g, from, mark, m, target, first)
    decreases m - k
  {
    hide RunTo, Holds, Ready, Start;
    if k < m {
      StartGrows(g, k, m - 1);
      TimelyBefore(g, from, mark, k, target);
      QuietStep(g, k, from, mark, target, first);
      QuietSteps(g, k + 1, m, from, mark, target, first);
    }
  }

  lemma TimelyBefore(g: Grid, from: nat, mark: nat, k: nat, target: nat)
    requires Start(g, k) < target
    ensures InTime(g, from, mark, k, target) && NextMark(g, from, mark, k, target) == mark
    ensures NextTarget(g, k, target) == target
  {
    hide Start;
  }

  // The tenth cycle closes a steady block, which the longer tiers fold.
  lemma BlockStep(g: Grid, from: nat, mark: nat, target: nat, first: bool) returns (b: Block)
    requires Fits(g) && from + 10 <= LIMIT && InTime(g, from, mark, from + 9, target)
    requires Ready(RunTo(g, from + 9).0) && Holds(RunTo(g, from + 9).0.basic, g, from, mark, from + 9, target, first)
    ensures var ((s, log), (t, all)) := (RunTo(g, from + 9), RunTo(g, from + 10));
            var after := NextMark(g, from, mark, from + 9, target);
            && Steady(g, b, from, first) && b.result.sequence == (s.ten.previous + 1 + |s.ten.since|) % B32
            && Folded(s, log, b, t, all) && L.InvTen(s.ten) && t.basic.applySeen
            && Holds(t.basic, g, after, after + 10, from + 10, NextTarget(g, from + 9, target), false)
  {
    hide RunTo, Fed, B.Accept, Cycles, Start, NextMark, NextTarget, Steady, Folded, Inv;
    var k := from + 9;
    var (s, log) := RunTo(g, k);
    RunToNext(g, k);
    Accepts(s.basic, g, from, mark, k, target, first);
    FedBlock(s, log, PacketAt(g, k));
    b := B.Accept(s.basic, CycleAt(g, k)).1.value;
    RunInv(g, k);
    hide Holds;
  }

  lemma RunInv(g: Grid, k: nat)
    requires Fits(g) && k <= LIMIT
    ensures var (s, log) := RunTo(g, k);
            && Inv(s, log) && L.InvTen(s.ten)
            && Add32(s.basic.sequence, 1) == (s.ten.previous + 1 + |s.ten.since|) % B32
  {
    hide Run, Inputs, AllJustified, L.InvTen;
    EveryRun(0, Inputs(g, k));
    var (s, log) := RunTo(g, k);
    Counters(s, log);
    hide B.Inv, A.Inv, L.InvTwo, Logged, Armed, Counted;
  }

  // ---- Steady blocks ----------------------------------------------------------------------

  ghost predicate At(g: Grid, k: nat, from: nat, mark: nat, target: nat, base: nat, goal: nat)
    requires Fits(g) && from <= k <= LIMIT
  {
    var s := RunTo(g, k).0;
    Ready(s) && Holds(s.basic, g, from, mark, k, target, false) && TenHolds(s.ten, g, base, from, goal)
  }

  ghost predicate SameTiers(g: Grid, k: nat, m: nat)
    requires Fits(g) && k <= LIMIT && m <= LIMIT
  {
    RunTo(g, m).0.two == RunTo(g, k).0.two && Intervals(RunTo(g, m).1) == Intervals(RunTo(g, k).1)
  }

  lemma WholeBlock(g: Grid, from: nat, k: nat, base: nat, goal: nat)
    requires Fits(g) && from <= k < from + 10 <= LIMIT && At(g, k, from, from + 10, goal, base, goal)
    requires Start(g, from + 10) <= goal && goal + Period(g) < B64
    ensures At(g, from + 10, from + 10, from + 20, goal, base, goal) && SameTiers(g, k, from + 10)
  {
    hide RunTo, Holds, TenHolds, Start, Steady, L.FoldTen, L.FoldTwo, L.Reaches, Intervals, InTime, L.InvTen;
    Starts(g, from + 8, 1);
    Starts(g, from + 9, 1);
    QuietSteps(g, k, from + 9, from, from + 10, goal, false);
    TimelyBefore(g, from, from + 10, from + 9, goal);
    var b := BlockStep(g, from, from + 10, goal, false);
    var s := RunTo(g, from + 9).0;
    TenFolds(s.ten, g, base, from, goal, b, from);
    TenStays(L.FoldTen(s.ten, b), g, base, from + 10, goal);
  }

  lemma TenStays(t: L.TenMinute, g: Grid, base: nat, next: nat, target: nat)
    requires Fits(g) && next <= LIMIT && TenHolds(t, g, base, next, target)
    ensures t.updateSeen
  {
  }

  lemma {:induction false} WholeBlocks(g: Grid, from: nat, k: nat, n: nat, base: nat, goal: nat)
    requires Fits(g) && from <= k < from + 10 && n > 0 && from + 10 * n <= LIMIT
    requires At(g, k, from, from + 10, goal, base, goal)
    requires Start(g, from + 10 * n) <= goal && goal + Period(g) < B64
    ensures At(g, from + 10 * n, from + 10 * n, from + 10 * n + 10, goal, base, goal)
    ensures SameTiers(g, k, from + 10 * n)
    decreases n
  {
    hide At, RunTo, Intervals, Start;
    StartGrows(g, from + 10, from + 10 * n);
    WholeBlock(g, from, k, base, goal);
    if n > 1 { WholeBlocks(g, from + 10, from + 10, n - 1, base, goal); }
  }

  // The block at whose cycle `m` the mark lies: the next one starts there, or
  // after it when `m` is its first cycle.
  lemma MarkedClose(g: Grid, from: nat, k: nat, m: nat, goal: nat) returns (b: Block)
    requires Fits(g) && from <= k <= m < from + 10 && from + 20 <= LIMIT
    requires Ready(RunTo(g, k).0) && Holds(RunTo(g, k).0.basic, g, from, from + 10, k, goal, false)
    requires (m > k ==> Start(g, m - 1) < goal) && goal <= Start(g, m) <= Start(g, from + 9) < goal + Period(g)
    ensures var ((s0, log0), (s, log), (t, all)) := (RunTo(g, k), RunTo(g, from + 9), RunTo(g, from + 10));
            var after := if m > from then m else from + 10;
            && log == log0 && s == s0.(basic := s.basic) && Ready(s)
            && Steady(g, b, from, false) && b.result.sequence == (s.ten.previous + 1 + |s.ten.since|) % B32
            && Folded(s, log, b, t, all) && L.InvTen(s.ten) && t.basic.applySeen
            && Holds(t.basic, g, after, after + 10, from + 10, goal + Period(g), false)
  {
    hide RunTo, Holds, Start, Steady, Folded, L.InvTen, Ready, NextMark, NextTarget, InTime;
    var after := if m > from then m else from + 10;
    var next := goal + Period(g);
    QuietSteps(g, k, m, from, from + 10, goal, false);
    Passes(g, from, m, goal);
    if m == from + 9 {
      b := BlockStep(g, from, from + 10, goal, false);
    } else {
      QuietStep(g, m, from, from + 10, goal, false);
      StartGrows(g, from + 8, from + 9);
      QuietSteps(g, m + 1, from + 9, from, after, next, false);
      TimelyBefore(g, from, after, from + 9, next);
      b := BlockStep(g, from, after, next, false);
    }
  }

  // The block at whose cycle `m` the mark lies closes the ten-minute interval
  // of n blocks; the next block starts at that cycle.
  lemma MarkedBlock(g: Grid, from: nat, k: nat, m: nat, n: nat, base: nat, goal: nat) returns (i: L.Interval)
    requires Fits(g) && from <= k <= m < from + 10 && from + 20 <= LIMIT && At(g, k, from, from + 10, goal, base, goal)
    requires (m > k ==> Start(g, m - 1) < goal) && goal <= Start(g, m) && Start(g, from + 9) < goal + Period(g)
    requires goal + Period(g) < B64 && base + 10 * n == from + 10
    ensures var ((s, log), (t, all)) := (RunTo(g, k), RunTo(g, from + 10));
            var after := if m > from then m else from + 10;
            && At(g, from + 10, after, after + 10, goal + Period(g), after, goal + Period(g))
            && Intervals(all) == Intervals(log) + [i] && SteadyInterval(i, g, base, n)
            && t.two.parts == M.Open(L.FoldTwo(s.two, i).parts)
  {
    hide RunTo, Holds, TenHolds, Start, Steady, Intervals, SteadyInterval;
    hide L.FoldTen, L.FoldTwo, L.Reaches, L.FinaliseTen, L.InvTen;
    var after := if m > from then m else from + 10;
    var next := goal + Period(g);
    StartGrows(g, m, from + 9);
    var b := MarkedClose(g, from, k, m, goal);
    StartGrows(g, m + 1, from + 10);
    Starts(g, m, 1);
    var s := RunTo(g, from + 9).0;
    TenFolds(s.ten, g, base, from, goal, b, after);
    TenCount(s.ten, g, base, from, goal);
    TenStays(L.FinaliseTen(L.FoldTen(s.ten, b)), g, after, after, next);
    i := L.IntervalOf(L.FoldTen(s.ten, b));
  }

  lemma Passes(g: Grid, from: nat, m: nat, goal: nat)
    requires goal <= Start(g, m) < goal + Period(g) && from <= m
    ensures InTime(g, from, from + 10, m, goal) && NextTarget(g, m, goal) == goal + Period(g)
    ensures NextMark(g, from, from + 10, m, goal) == if m > from then m else from + 10
  {
    hide Start;
  }

  lemma TenCount(t: L.TenMinute, g: Grid, base: nat, next: nat, target: nat)
    requires Fits(g) && next <= LIMIT && TenHolds(t, g, base, next, target)
    ensures base + 10 * |t.since| == next
  {
  }

  // ---- The first two blocks ------------------------------------------------------------------

  ghost predicate Waiting(s: State, contaminated: seq<Block>) {
    && s.ten.blocks == [] && s.ten.target == 0 && s.ten.targetValid && s.ten.since == contaminated
    && s.two.parts == []
  }

  // The first packet sets the clock and the configuration, and its cycle opens
  // a block that is marked as following a discontinuity.
  lemma FirstCycle(g: Grid)
    requires Fits(g)
    ensures var (s, log) := RunTo(g, 1);
            && Ready(s) && Holds(s.basic, g, 0, 10, 1, Period(g), true)
            && Waiting(s, []) && log == []
  {
    hide B.Accept, Fed, Cycles;
    var c := PacketAt(g, 0).context;
    var s := Observed(Initial(0), c);
    assert Start(g, 0) == 0;
    CyclesNext(g, 0, 0);
    assert Holds(s.basic, g, 0, 10, 0, 0, true);
    Accepts(s.basic, g, 0, 10, 0, 0, true);
    FedObserved(Initial(0), [], PacketAt(g, 0));
    assert RunTo(g, 0) == (Initial(0), []);
    RunToNext(g, 0);
    hide RunTo;
  }

  lemma FlaggedFolds(t: L.TenMinute, b: Block)
    requires b.result.first
    ensures L.FoldTen(t, b) == t.(blocks := [], contaminated := true, since := t.since + [b])
    ensures !L.Reaches(t, b.result)
  {
    assert !Eligible(b.result);
    hide Eligible;
  }

  lemma FirstFolds(t: L.TenMinute, g: Grid, b: Block, after: nat)
    requires Fits(g) && after <= LIMIT && t.blocks == [] && t.targetValid && t.updateSeen && t.contaminated
    requires t.target == 0 && Eligible(b.result) && b.result.sampleRate == g.rate
    ensures var u := L.FoldTen(t, b);
            && L.Reaches(t, b.result) && !L.Cascades(L.IntervalOf(u))
            && TenHolds(L.FinaliseTen(u), g, after, after, Period(g))
  {
    hide Eligible;
    assert Add64(0, g.rate * 600) == Period(g);
  }

  // The first block is not eligible; the second closes a contaminated interval
  // at the target already passed.
  lemma Warmup(g: Grid)
    requires Fits(g)
    ensures At(g, 20, 20, 30, Period(g), 20, Period(g))
    ensures var (s, log) := RunTo(g, 20); s.two.parts == [] && |Intervals(log)| == 1
  {
    hide RunTo, Holds, TenHolds, Steady, L.FoldTen, L.Reaches, Intervals, L.FinaliseTen, L.InvTen, L.Cascades;
    var goal := Period(g);
    FirstCycle(g);
    assert Start(g, 19) < goal;
    StartGrows(g, 8, 19);
    StartGrows(g, 9, 19);
    StartGrows(g, 18, 19);
    hide Start;
    QuietSteps(g, 1, 9, 0, 10, goal, true);
    TimelyBefore(g, 0, 10, 9, goal);
    var b := BlockStep(g, 0, 10, goal, true);
    FlaggedBlock(g, b, 0);
    FlaggedFolds(RunTo(g, 9).0.ten, b);
    assert Intervals([]) == [] by { NoIntervals(); }
    QuietSteps(g, 10, 19, 10, 20, goal, false);
    TimelyBefore(g, 10, 20, 19, goal);
    var c := BlockStep(g, 10, 20, goal, false);
    SteadyEligible(g, c, 10);
    RateOf(g, c, 10);
    FirstFolds(RunTo(g, 19).0.ten, g, c, 20);
    TenStays(L.FinaliseTen(L.FoldTen(RunTo(g, 19).0.ten, c)), g, 20, 20, goal);
  }

  lemma NoIntervals()
    ensures Intervals([]) == []
  {
  }

  lemma FlaggedBlock(g: Grid, b: Block, from: nat)
    requires Fits(g) && from + 10 <= LIMIT && Steady(g, b, from, true)
    ensures b.result.first
  {
  }

  lemma RateOf(g: Grid, b: Block, from: nat)
    requires Fits(g) && from + 10 <= LIMIT && Steady(g, b, from, false)
    ensures b.result.sampleRate == g.rate
  {
  }

  // ---- More blocks than the 16-bit counter -----------------------------------------------------

  lemma RecordsSound(g: Grid, k: nat, j: nat)
    requires Fits(g) && k <= LIMIT
    requires j < |Intervals(RunTo(g, k).1)|
    ensures L.SoundInterval(Intervals(RunTo(g, k).1)[j]) && M.Slices(RunTo(g, k).1, j)
  {
    hide Inv, Intervals, AllJustified, L.SoundInterval, Run, Inputs;
    EveryRun(0, Inputs(g, k));
    M.IntervalsSlice(RunTo(g, k).1, 0);
    assert M.Slices(RunTo(g, k).1, j);
  }

  // Record j is aligned, and omits blocks published since the record before it.
  ghost predicate OmitsBlocks(log: seq<Record>, j: nat) {
    && 0 < j < |Intervals(log)| && M.Slices(log, j)
    && L.Aligned(Intervals(log)[j]) && |Intervals(log)[j].since| > B16
    && Intervals(log)[j].since == Basics(log)[M.Ends(log)[j - 1]..M.Ends(log)[j]]
    && Intervals(log)[j].blocks != Intervals(log)[j].since
  }

  // The state behind the bound of 2^16: blocks of a hundred samples at 16 kHz,
  // 95999 of them between two marks.
  lemma CounterWraps() returns (g: Grid, k: nat)
    ensures g == Grid(10, 16_000) && k <= LIMIT && OmitsBlocks(RunTo(g, k).1, 1)
  {
    hide RunTo, Intervals, At, Basics, SteadyInterval, L.FoldTwo, L.SoundInterval, L.Aligned;
    g, k := Grid(10, 16_000), 960_010;
    var goal := Period(g);
    assert goal == 9_600_000 && Start(g, 960_000) == goal && Start(g, 960_009) == goal + 90;
    hide Start, Period;
    Warmup(g);
    WholeBlocks(g, 20, 20, 95_998, 20, goal);
    var i := MarkedBlock(g, 960_000, 960_000, 960_000, 95_999, 20, goal);
    IntervalFacts(i, g, 20, 95_999);
    assert |Intervals(RunTo(g, k).1)| == 2;
    RecordsSound(g, k, 1);
    Omits(i);
  }

  lemma IntervalFacts(i: L.Interval, g: Grid, base: nat, n: nat)
    requires Fits(g) && base + 10 * n <= LIMIT && SteadyInterval(i, g, base, n)
    ensures L.Aligned(i) && |i.since| == n
  {
  }

  lemma Omits(i: L.Interval)
    requires L.SoundInterval(i) && L.Aligned(i) && |i.since| > B16
    ensures i.blocks != i.since
  {
  }

  // ---- The two-hour interval starts again ---------------------------------------------------------

  // An aligned interval of at most 2^16 steady blocks may be cascaded; its first
  // and last blocks are these.
  lemma WholeSteady(i: L.Interval, g: Grid, base: nat, n: nat)
    requires Fits(g) && base + 10 * n <= LIMIT && SteadyInterval(i, g, base, n) && L.SoundInterval(i) && n < B16
    ensures L.Cascades(i) && i.blocks == i.since && |i.blocks| == n > 0 && L.Unwrapped(i)
    ensures Steady(g, i.blocks[0], base, false) && Steady(g, i.blocks[n - 1], base + 10 * (n - 1), false)
    ensures SteadyFrom(g, i.blocks, base)
  {
    assert Steady(g, i.since[0], base + 10 * 0, false);
    assert Steady(g, i.since[n - 1], base + 10 * (n - 1), false);
    hide Start, Cycles, L.Linked, L.NumberedAfter, L.Reached, SuffixOf;
  }

  lemma {:induction false} SteadyTotal(g: Grid, blocks: seq<Block>, base: nat)
    requires Fits(g) && base + 10 * |blocks| <= LIMIT && SteadyFrom(g, blocks, base)
    ensures Samples(blocks) == |blocks| * (10 * g.step)
  {
    if blocks != [] {
      var n := |blocks| - 1;
      assert Steady(g, blocks[n], base + 10 * n, false);
      assert SteadyFrom(g, blocks[..n], base) by {
        forall j | 0 <= j < n ensures Steady(g, blocks[..n][j], base + 10 * j, false) {
          assert blocks[j] == blocks[..n][j];
        }
      }
      hide Steady;
      SteadyTotal(g, blocks[..n], base);
      assert (n + 1) * (10 * g.step) == n * (10 * g.step) + 10 * g.step;
    }
  }

  // Whether the second interval abuts the first is told by their cycles.
  lemma SteadyAbut(i: L.Interval, next: L.Interval, g: Grid, base: nat, n: nat, from: nat, m: nat)
    requires Fits(g) && base + 10 * n <= LIMIT && SteadyInterval(i, g, base, n) && L.SoundInterval(i) && n < B16
    requires from + 10 * m <= LIMIT && SteadyInterval(next, g, from, m) && L.SoundInterval(next) && m < B16
    requires n * (10 * g.step) < B32 && next.number == Add32(i.number, 1)
    ensures i.blocks != [] && next.blocks != []
    ensures L.Abuts(i, next) <==> Start(g, from) == Start(g, base + 10 * n)
  {
    hide SteadyInterval, L.SoundInterval, SteadyFrom, Start, Samples, L.Unwrapped, L.Cascades, Cycles;
    WholeSteady(i, g, base, n);
    WholeSteady(next, g, from, m);
    SteadyTotal(g, i.blocks, base);
    SteadyEligible(g, i.blocks[n - 1], base + 10 * (n - 1));
    L.UnwrappedContinues(i);
    hide NextFirst, Eligible;
    M.AbutsWhereEnded(i, next);
    hide L.Abuts;
  }

  lemma RecordsNumbered(g: Grid, k: nat, j: nat)
    requires Fits(g) && k <= LIMIT
    requires j + 1 < |Intervals(RunTo(g, k).1)|
    ensures Intervals(RunTo(g, k).1)[j + 1].number == Add32(Intervals(RunTo(g, k).1)[j].number, 1)
  {
    hide Inv, Intervals, Run, Inputs, M.EachGrows, M.HistoryOf;
    M.EveryHistory(0, Inputs(g, k));
    M.Numbers(Intervals(RunTo(g, k).1), M.HistoryOf(0, Inputs(g, k)).grown, j);
    hide M.EndsAt, M.GrowsAt;
  }

  lemma FoldsTwo(w: L.TwoHour, i: L.Interval)
    requires L.Cascades(i) && w.parts == []
    ensures M.Open(L.FoldTwo(w, i).parts) == [i]
  {
    hide L.Cascades;
  }

  lemma FoldsTwoNext(w: L.TwoHour, i: L.Interval, next: L.Interval)
    requires L.Cascades(next) && w.parts == [i]
    ensures M.Open(L.FoldTwo(w, next).parts) == if L.Abuts(i, next) then [i, next] else [next]
  {
    hide L.Cascades, L.Abuts;
  }

  // The mark `goal` falls on cycle m of the block that starts at `from`.
  predicate MarkIn(g: Grid, from: nat, m: nat, goal: nat) {
    && from <= m < from + 10 && Start(g, from) <= goal <= Start(g, m)
    && (m > from ==> Start(g, m - 1) < goal) && Start(g, from + 9) < goal + Period(g)
  }

  // Where the next block starts: at the mark, or after the block begun with it.
  function After(from: nat, m: nat): nat { if m > from then m else from + 10 }

  ghost predicate Recorded(log: seq<Record>, i: L.Interval, next: L.Interval) {
    && |Intervals(log)| == 3 && Intervals(log)[1] == i && Intervals(log)[2] == next
    && L.SoundInterval(i) && L.SoundInterval(next) && L.Cascades(i) && L.Cascades(next)
  }

  lemma PeriodFits(g: Grid)
    requires Fits(g)
    ensures 0 < Period(g) <= 19_200_000
  {
  }

  // The first two marks close an interval each.
  lemma Marked(g: Grid, q1: nat, m1: nat, q2: nat, m2: nat, base: nat) returns (i: L.Interval, next: L.Interval)
    requires Fits(g) && 0 < q1 < 4000 && 0 < q2 < 4000 && base == After(20 + 10 * q1, m1)
    requires MarkIn(g, 20 + 10 * q1, m1, Period(g)) && MarkIn(g, base + 10 * q2, m2, 2 * Period(g))
    ensures base + 10 * q2 + 10 <= LIMIT
    ensures var (before, log) := (RunTo(g, base + 10 * q2).0.two, RunTo(g, base + 10 * q2 + 10).1);
            && |Intervals(log)| == 3 && Intervals(log)[1] == i && Intervals(log)[2] == next
            && SteadyInterval(i, g, 20, q1 + 1) && SteadyInterval(next, g, base, q2 + 1)
            && before.parts == M.Open(L.FoldTwo(RunTo(g, 20 + 10 * q1).0.two, i).parts)
            && RunTo(g, 20 + 10 * q1).0.two.parts == []
            && RunTo(g, base + 10 * q2 + 10).0.two.parts == M.Open(L.FoldTwo(before, next).parts)
  {
    hide RunTo, Intervals, At, SteadyInterval, L.FoldTwo, M.Open, Start, Period;
    var goal, from, end := Period(g), 20 + 10 * q1, base + 10 * q2;
    PeriodFits(g);
    Warmup(g);
    WholeBlocks(g, 20, 20, q1, 20, goal);
    i := MarkedBlock(g, from, from, m1, q1 + 1, 20, goal);
    WholeBlocks(g, base, from + 10, q2, base, 2 * goal);
    next := MarkedBlock(g, end, end, m2, q2 + 1, base, 2 * goal);
  }

  // Two ten-minute intervals after the warm-up, the marks at cycles m1 and m2,
  // leave a two-hour interval of both or of the second alone.
  lemma TwoIntervals(g: Grid, q1: nat, m1: nat, q2: nat, m2: nat, base: nat) returns (i: L.Interval, next: L.Interval)
    requires Fits(g) && 0 < q1 < 4000 && 0 < q2 < 4000 && base == After(20 + 10 * q1, m1)
    requires MarkIn(g, 20 + 10 * q1, m1, Period(g)) && MarkIn(g, base + 10 * q2, m2, 2 * Period(g))
    ensures base + 10 * q2 + 10 <= LIMIT && Recorded(RunTo(g, base + 10 * q2 + 10).1, i, next)
    ensures SteadyInterval(i, g, 20, q1 + 1) && SteadyInterval(next, g, base, q2 + 1)
    ensures RunTo(g, base + 10 * q2 + 10).0.two.parts
         == if Start(g, base) == Start(g, 30 + 10 * q1) then [i, next] else [next]
  {
    hide RunTo, Intervals, SteadyInterval, L.FoldTwo, L.SoundInterval, L.Cascades, L.Abuts, Start, Period;
    var from, end := 20 + 10 * q1, base + 10 * q2;
    i, next := Marked(g, q1, m1, q2, m2, base);
    var log := RunTo(g, end + 10).1;
    RecordsSound(g, end + 10, 1);
    RecordsSound(g, end + 10, 2);
    RecordsNumbered(g, end + 10, 1);
    WholeSteady(i, g, 20, q1 + 1);
    WholeSteady(next, g, base, q2 + 1);
    FoldsTwo(RunTo(g, from).0.two, i);
    FoldsTwoNext(RunTo(g, end).0.two, i, next);
    MulLeBoth(q1 + 1, 4000, 10 * g.step, 10_000);
    SteadyAbut(i, next, g, 20, q1 + 1, base, q2 + 1);
  }

  // The last block of `i` holds the mark strictly inside, and `next` starts
  // with the cycle that passed it.
  ghost predicate Splits(i: L.Interval, next: L.Interval, mark: nat) {
    && i.blocks != [] && next.blocks != []
    && var cycles := i.blocks[|i.blocks| - 1].cycles;
    && exists j :: 0 < j < |cycles| && next.blocks[0].cycles != []
         && cycles[j - 1].firstSample < mark <= cycles[j].firstSample && next.blocks[0].cycles[0] == cycles[j]
  }

  lemma SplitsAt(i: L.Interval, next: L.Interval, g: Grid, q1: nat, m1: nat, q2: nat, goal: nat)
    requires Fits(g) && 0 < q1 < 4000 && 0 < q2 < 4000 && L.SoundInterval(i) && L.SoundInterval(next)
    requires MarkIn(g, 20 + 10 * q1, m1, goal) && m1 > 20 + 10 * q1
    requires SteadyInterval(i, g, 20, q1 + 1) && SteadyInterval(next, g, m1, q2 + 1)
    ensures Splits(i, next, goal)
  {
    hide SteadyInterval, L.SoundInterval, Start, L.Unwrapped, L.Cascades, CycleAt, SteadyFrom;
    WholeSteady(i, g, 20, q1 + 1);
    WholeSteady(next, g, m1, q2 + 1);
    var cycles := i.blocks[q1].cycles;
    var j := m1 - (20 + 10 * q1);
    assert cycles == Cycles(g, 20 + 10 * q1, 30 + 10 * q1);
    assert cycles[j] == CycleAt(g, 20 + 10 * q1 + j) && cycles[j - 1] == CycleAt(g, 20 + 10 * q1 + (j - 1));
    assert next.blocks[0].cycles[0] == CycleAt(g, m1 + 0);
  }

  // A mains period of 641 samples at 32 kHz, just below 50 Hz: the first mark
  // after the warm-up falls inside a block, so the ten minutes after it start
  // before the ten minutes up to it end, and both records are aligned but the
  // two-hour interval goes back to one part.
  lemma TwoHoursStartAgain() returns (k: nat, i: L.Interval, next: L.Interval)
    ensures var g := Grid(641, 32_000);
            k <= LIMIT && Recorded(RunTo(g, k).1, i, next) && Splits(i, next, Period(g))
            && RunTo(g, k).0.two.parts == [next]
  {
    hide RunTo, SteadyInterval, Splits, Recorded;
    var g := Grid(641, 32_000);
    k := 59_914;
    i, next := TwoIntervals(g, 2993, 29_954, 2995, 59_907, 29_954);
    RecordedSound(RunTo(g, k).1, i, next);
    SplitsAt(i, next, g, 2993, 29_954, 2995, Period(g));
  }

  lemma RecordedSound(log: seq<Record>, i: L.Interval, next: L.Interval)
    requires Recorded(log, i, next)
    ensures L.SoundInterval(i) && L.SoundInterval(next)
  {
    hide L.SoundInterval, L.Cascades;
  }

  // At 640 samples, exactly 50 Hz, the marks fall on block starts and the same
  // two records are both parts.
  lemma TwoHoursGoOn() returns (k: nat, i: L.Interval, next: L.Interval)
    ensures var g := Grid(640, 32_000);
            k <= LIMIT && Recorded(RunTo(g, k).1, i, next) && RunTo(g, k).0.two.parts == [i, next]
  {
    hide RunTo, SteadyInterval, Recorded;
    k := 60_010;
    i, next := TwoIntervals(Grid(640, 32_000), 2998, 30_000, 2999, 60_000, 30_010);
  }
}
