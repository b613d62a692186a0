/** What a UTC mark inside an open block does to the longer intervals: the marks
    in force beside the interval tree, over whole runs. */
module UtcMarks {
  import opened Words
  import opened IntervalTypes
  import B = BasicTier
  import C = IntervalCompletion

  // The mark in force when a cycle joined the open block; none without a valid
  // target, and none once a later target update has replaced it. Beside it, where
  // it comes from: the latest target update, and where the latest cycle accepted
  // since that update started, -1 if there was none.
  datatype Mark = NoMark | Mark(target: u64, start: u64, before: int)

  predicate Passed(c: Cycle, m: Mark) { m.Mark? && m.target <= c.firstSample }

  // Some cycle of the block other than the first arrived at or after its mark.
  ghost predicate MarkInside(cycles: seq<Cycle>, marks: seq<Mark>)
    requires |marks| == |cycles|
  {
    exists j :: 0 < j < |cycles| && Passed(cycles[j], marks[j])
  }

  // The last such cycle, zero if there is none.
  function MarkedAt(cycles: seq<Cycle>, marks: seq<Mark>): (j: nat)
    requires |marks| == |cycles|
    ensures j > 0 ==> j < |cycles| && Passed(cycles[j], marks[j])
    ensures forall k :: j < k < |cycles| ==> !Passed(cycles[k], marks[k])
  {
    var n := |cycles| - 1;
    if n <= 0 then 0
    else if Passed(cycles[n], marks[n]) then n
    else
      var j := MarkedAt(cycles[..n], marks[..n]);
      assert forall k :: j < k < n ==> !Passed(cycles[..n][k], marks[..n][k]);
      j
  }

  lemma MarkedIsInside(cycles: seq<Cycle>, marks: seq<Mark>)
    requires |marks| == |cycles|
    ensures MarkInside(cycles, marks) <==> MarkedAt(cycles, marks) > 0
  {
  }

  function Carried(cycles: seq<Cycle>, marks: seq<Mark>): seq<Cycle>
    requires |marks| == |cycles|
  {
    var j := MarkedAt(cycles, marks);
    if j == 0 then [] else cycles[j..]
  }

  // ---- The marks beside the block assembly ------------------------------------

  // The marks of the open block's cycles, and those of every closed block; the
  // latest target update and the start of the latest cycle accepted since.
  datatype Trace = Trace(marks: seq<Mark>, closed: seq<seq<Mark>>, start: u64, before: int)

  function NoTrace(): Trace { Trace([], [], 0, -1) }

  function InForce(b: B.Basic, t: Trace): Mark {
    if b.targetValid then Mark(b.target, t.start, t.before) else NoMark
  }

  function Joined(b: B.Basic, c: Cycle): B.Basic { B.Join(B.Admit(b, c), c) }

  function JoinedMarks(t: Trace, b: B.Basic, c: Cycle): seq<Mark> {
    (if B.Broken(b, c) then [] else t.marks) + [InForce(b, t)]
  }

  function Close(t: Trace, cycles: seq<Cycle>, target: nat, marks: seq<Mark>): Trace
    requires |marks| == |cycles|
  {
    if |marks| < target then t.(marks := marks)
    else
      var j := MarkedAt(cycles, marks);
      t.(marks := if j == 0 then [] else marks[j..], closed := t.closed + [marks])
  }

  // The block holds the marks of its cycles, and its shadow starts at the last
  // mark inside.
  ghost predicate Shadowed(b: B.Basic, t: Trace) {
    |t.marks| == |b.active| && b.shadow == Carried(b.active, t.marks)
  }

  function Offer(t: Trace, b: B.Basic, c: Cycle): Trace
    requires |t.marks| == |b.active|
  {
    if !b.settings.enable then t
    else if c.generation != b.settings.generation then t.(marks := [])
    else
      Close(t.(before := c.firstSample), Joined(b, c).active, B.TargetCycles(Joined(b, c)), JoinedMarks(t, b, c))
  }

  lemma CarriedExtends(cycles: seq<Cycle>, marks: seq<Mark>, c: Cycle, m: Mark)
    requires |marks| == |cycles|
    ensures Carried(cycles + [c], marks + [m])
         == if cycles == [] then [] else if Passed(c, m) then [c]
            else if Carried(cycles, marks) == [] then [] else Carried(cycles, marks) + [c]
  {
    assert (cycles + [c])[..|cycles|] == cycles && (marks + [m])[..|cycles|] == marks;
  }

  // From the last mark on, nothing more is marked.
  lemma CarriedIsClean(cycles: seq<Cycle>, marks: seq<Mark>)
    requires |marks| == |cycles|
    ensures var j := MarkedAt(cycles, marks); MarkedAt(cycles[j..], marks[j..]) == 0
  {
  }

  lemma JoinShadowed(t: Trace, b: B.Basic, c: Cycle)
    requires Shadowed(b, t)
    ensures var j := Joined(b, c);
            |JoinedMarks(t, b, c)| == |j.active| && j.shadow == Carried(j.active, JoinedMarks(t, b, c))
  {
    var base := B.Admit(b, c);
    var marks := if B.Broken(b, c) then [] else t.marks;
    CarriedExtends(base.active, marks, c, InForce(b, t));
    assert base.shadow == Carried(base.active, marks);
    hide MarkedAt, Carried, B.Broken, B.NextTarget;
  }

  lemma CloseShadowed(t: Trace, b: B.Basic, marks: seq<Mark>)
    requires |marks| == |b.active| && b.active != [] && b.shadow == Carried(b.active, marks)
    ensures Shadowed(B.Close(b).0, Close(t, b.active, B.TargetCycles(b), marks))
  {
    CarriedIsClean(b.active, marks);
    hide MarkedAt, B.Describe;
  }

  lemma OfferShadowed(t: Trace, b: B.Basic, c: Cycle)
    requires Shadowed(b, t)
    ensures Shadowed(B.Accept(b, c).0, Offer(t, b, c))
  {
    hide MarkedAt, Carried, B.Close, Close, JoinedMarks;
    JoinShadowed(t, b, c);
    CloseShadowed(t.(before := c.firstSample), Joined(b, c), JoinedMarks(t, b, c));
    hide B.Join, B.Admit;
    if b.settings.enable && c.generation != b.settings.generation { CarriedNone(); }
  }

  lemma CarriedNone()
    ensures Carried([], []) == []
  {
  }

  // ---- Where the next block starts ---------------------------------------------

  predicate Succeeds(last: Cycle, c: Cycle) {
    c.sequence == Add32(last.sequence, 1) && c.cycleSequence == Add32(last.cycleSequence, 1)
  }

  // A mark inside a block makes the next block start at that cycle again;
  // otherwise the next block starts with the cycle that follows.
  predicate Resumes(block: Block, marks: seq<Mark>, c: Cycle)
    requires |marks| == |block.cycles| > 0
  {
    var j := MarkedAt(block.cycles, marks);
    if j > 0 then c == block.cycles[j] else Succeeds(block.cycles[|block.cycles| - 1], c)
  }

  ghost predicate Waits(b: B.Basic, block: Block, marks: seq<Mark>)
    requires |marks| == |block.cycles| > 0
  {
    if b.active != [] then Resumes(block, marks, b.active[0])
    else
      var last := block.cycles[|block.cycles| - 1];
      && MarkedAt(block.cycles, marks) == 0 && b.haveExpectation
      && b.nextResult == Add32(last.sequence, 1) && b.nextCycle == Add32(last.cycleSequence, 1)
  }

  ghost predicate Paired(blocks: seq<Block>, closed: seq<seq<Mark>>) {
    |blocks| == |closed| && forall n :: 0 <= n < |blocks| ==> |closed[n]| == |blocks[n].cycles| > 0
  }

  ghost predicate ResumesAt(blocks: seq<Block>, closed: seq<seq<Mark>>, n: nat)
    requires Paired(blocks, closed) && 0 < n < |blocks|
  {
    blocks[n].result.first || Resumes(blocks[n - 1], closed[n - 1], blocks[n].cycles[0])
  }

  ghost predicate EachResumes(blocks: seq<Block>, closed: seq<seq<Mark>>) {
    && Paired(blocks, closed)
    && (blocks != [] ==> blocks[0].result.first)
    && forall n :: 0 < n < |blocks| ==> ResumesAt(blocks, closed, n)
  }

  // While nothing was discarded, the open block resumes the last closed one.
  ghost predicate Resuming(b: B.Basic, t: Trace, blocks: seq<Block>) {
    && Shadowed(b, t)
    && EachResumes(blocks, t.closed)
    && (!b.discontinuity ==>
        blocks != [] && Waits(b, blocks[|blocks| - 1], t.closed[|blocks| - 1]))
  }

  // The open block after a cycle joined it still resumes the last closed block.
  lemma JoinWaits(b: B.Basic, c: Cycle, block: Block, marks: seq<Mark>)
    requires |marks| == |block.cycles| > 0
    requires !b.discontinuity ==> Waits(b, block, marks)
    ensures var j := Joined(b, c);
            j.active != [] && (!j.discontinuity ==> Resumes(block, marks, j.active[0]))
  {
    hide MarkedAt, B.NextTarget;
    if !Joined(b, c).discontinuity { assert !B.Broken(b, c) && !b.discontinuity; }
  }

  lemma JoinDiscontinuity(b: B.Basic, c: Cycle)
    ensures Joined(b, c).active != []
    ensures Joined(b, c).discontinuity == (b.discontinuity || B.Broken(b, c))
  {
    hide B.Broken, B.NextTarget;
  }

  lemma ResumesAppend(blocks: seq<Block>, closed: seq<seq<Mark>>, block: Block, marks: seq<Mark>)
    requires EachResumes(blocks, closed) && |marks| == |block.cycles| > 0
    requires block.result.first ||
      (blocks != [] && Resumes(blocks[|blocks| - 1], closed[|blocks| - 1], block.cycles[0]))
    ensures EachResumes(blocks + [block], closed + [marks])
  {
    hide Resumes;
    var all, marked := blocks + [block], closed + [marks];
    forall n | 0 < n < |all| ensures ResumesAt(all, marked, n) {
      if n < |blocks| { assert ResumesAt(blocks, closed, n); }
    }
  }

  // The cycle just joined was expected, so after closing the next one is.
  lemma CloseWaits(b: B.Basic, marks: seq<Mark>)
    requires |marks| == |b.active| > 0 && b.shadow == Carried(b.active, marks)
    requires B.Expected(b) && B.Close(b).1.Some?
    ensures var (after, closed) := B.Close(b);
            && closed.value.cycles == b.active && closed.value.result.first == b.discontinuity
            && Waits(after, closed.value, marks) && !after.discontinuity
  {
    hide MarkedAt, Fold;
  }

  lemma OpenWaits(b: B.Basic, block: Block, marks: seq<Mark>)
    requires |marks| == |block.cycles| > 0 && b.active != []
    ensures Waits(b, block, marks) <==> Resumes(block, marks, b.active[0])
  {
  }

  lemma CloseResumes(b: B.Basic, t: Trace, blocks: seq<Block>, marks: seq<Mark>)
    requires |marks| == |b.active| > 0 && b.shadow == Carried(b.active, marks) && B.Expected(b)
    requires EachResumes(blocks, t.closed)
    requires !b.discontinuity ==>
      blocks != [] && Resumes(blocks[|blocks| - 1], t.closed[|blocks| - 1], b.active[0])
    ensures var (after, closed) := B.Close(b);
            Resuming(after, Close(t, b.active, B.TargetCycles(b), marks),
                     blocks + if closed.Some? then [closed.value] else [])
  {
    assert Paired(blocks, t.closed);
    hide EachResumes, Resumes, MarkedAt, Carried, Shadowed, B.Describe, Waits;
    CloseShadowed(t, b, marks);
    var (after, closed) := B.Close(b);
    if closed.Some? {
      CloseWaits(b, marks);
      ResumesAppend(blocks, t.closed, closed.value, marks);
    } else {
      assert blocks + [] == blocks;
      if !b.discontinuity { OpenWaits(b, blocks[|blocks| - 1], t.closed[|blocks| - 1]); }
    }
  }

  lemma JoinExpected(b: B.Basic, c: Cycle)
    requires B.Inv(b) && c.generation == b.settings.generation
    ensures B.Expected(Joined(b, c))
  {
    B.JoinedReady(b, c);
  }

  lemma OfferResumes(b: B.Basic, t: Trace, blocks: seq<Block>, c: Cycle)
    requires B.Inv(b) && Resuming(b, t, blocks)
    ensures var (after, closed) := B.Accept(b, c);
            Resuming(after, Offer(t, b, c), blocks + if closed.Some? then [closed.value] else [])
  {
    assert Paired(blocks, t.closed);
    hide EachResumes, MarkedAt, Carried, B.Close, Close, JoinedMarks, B.Inv;
    assert blocks + [] == blocks;
    OfferShadowed(t, b, c);
    if b.settings.enable && c.generation == b.settings.generation {
      hide Waits, Resumes;
      JoinShadowed(t, b, c);
      JoinExpected(b, c);
      JoinDiscontinuity(b, c);
      if !Joined(b, c).discontinuity { JoinWaits(b, c, blocks[|blocks| - 1], t.closed[|blocks| - 1]); }
      CloseResumes(Joined(b, c), t.(before := c.firstSample), blocks, JoinedMarks(t, b, c));
      hide B.Join, B.Admit, B.Expected, B.Broken, Shadowed;
    } else {
      hide Resumes;
    }
  }

  // ---- Commands ------------------------------------------------------------------

  // A new target replaces the marks of the open block's cycles.
  function OnTarget(t: Trace, c: Context): Trace {
    t.(marks := seq(|t.marks|, _ => NoMark), start := c.target, before := -1)
  }

  function OnApply(t: Trace): Trace { t.(marks := []) }

  lemma CommandsShadowed(b: B.Basic, t: Trace, c: Context)
    requires Shadowed(b, t)
    ensures Shadowed(B.OnTarget(b, c), OnTarget(t, c)) && Shadowed(B.OnApply(b, c), OnApply(t))
  {
    assert MarkedAt(b.active, OnTarget(t, c).marks) == 0;
  }

  lemma CommandsResume(b: B.Basic, t: Trace, blocks: seq<Block>, c: Context)
    requires Resuming(b, t, blocks)
    ensures Resuming(B.OnTarget(b, c), OnTarget(t, c), blocks) && Resuming(B.OnApply(b, c), OnApply(t), blocks)
  {
    CommandsShadowed(b, t, c);
    hide MarkedAt, Carried, Shadowed;
  }

  // ---- The target in force is the next mark ----------------------------------------

  function MarkOf(start: u64, rate: u32, n: nat): nat { start + n * (rate * 600) }

  // With the last target update at `start`, the target in force is the first
  // mark of its ten-minute grid beyond the latest cycle, or the update itself.
  ghost predicate OnGrid(b: B.Basic, start: u64, last: int) {
    b.targetValid ==>
      exists n: nat ::
        && b.target == MarkOf(start, b.settings.sampleRate, n)
        && last < b.target && (n > 0 ==> MarkOf(start, b.settings.sampleRate, n - 1) <= last)
  }

  lemma MarksGrow(start: u64, rate: u32, n: nat, m: nat)
    requires n <= m
    ensures MarkOf(start, rate, n) <= MarkOf(start, rate, m)
  {
    MulLe(n, m, rate * 600);
  }

  lemma MarksApart(start: u64, rate: u32, n: nat, q: nat)
    ensures MarkOf(start, rate, n + q) == MarkOf(start, rate, n) + q * (rate * 600)
  {
    assert (n + q) * (rate * 600) == n * (rate * 600) + q * (rate * 600);
  }

  lemma WholeIntervals(target: nat, first: nat, interval: nat)
    requires interval > 0 && target <= first
    ensures var q := (first - target) / interval;
            q >= 0 && target + q * interval <= first < target + (q + 1) * interval
  {
    var q := (first - target) / interval;
    assert first - target == q * interval + (first - target) % interval;
    assert (q + 1) * interval == q * interval + interval;
  }

  lemma NextMark(start: u64, rate: u32, n: nat, first: u64) returns (m: nat)
    requires rate > 0 && MarkOf(start, rate, n) <= first && first + rate * 600 < B64
    ensures m > n && B.NextTarget(MarkOf(start, rate, n), rate, first) == (MarkOf(start, rate, m), true)
    ensures MarkOf(start, rate, m - 1) <= first < MarkOf(start, rate, m)
  {
    hide MarkOf;
    var target := MarkOf(start, rate, n);
    WholeIntervals(target, first, rate * 600);
    var q := (first - target) / (rate * 600);
    m := n + (q + 1);
    MarksApart(start, rate, n, q);
    MarksApart(start, rate, n, q + 1);
    MarksApart(start, rate, n + q, 1);
  }

  // In terms of the target update and the cycles alone: a cycle passes its mark
  // exactly when a mark of the grid lies between its start and that of the cycle
  // before it, and then the target moves beyond it.
  lemma PassesGridMark(b: B.Basic, c: Cycle, start: u64, last: int)
    requires OnGrid(b, start, last) && last < c.firstSample && b.targetValid
    requires b.settings.sampleRate > 0 && c.firstSample + b.settings.sampleRate * 600 < B64
    ensures B.Crosses(b, c) <==>
            exists n: nat :: last < MarkOf(start, b.settings.sampleRate, n) <= c.firstSample
    ensures OnGrid(B.Advance(b, c), start, c.firstSample) && B.Advance(b, c).targetValid
  {
    var rate := b.settings.sampleRate;
    var n: nat :|
      && b.target == MarkOf(start, rate, n)
      && last < b.target && (n > 0 ==> MarkOf(start, rate, n - 1) <= last);
    if b.target <= c.firstSample {
      var m := NextMark(start, rate, n, c.firstSample);
      assert B.Advance(b, c).target == MarkOf(start, rate, m);
    } else {
      forall k: nat ensures !(last < MarkOf(start, rate, k) <= c.firstSample) {
        if k >= n { MarksGrow(start, rate, n, k); } else { MarksGrow(start, rate, k, n - 1); }
      }
    }
    hide MarkOf;
  }

  lemma JoinTarget(b: B.Basic, c: Cycle)
    ensures var s := Joined(b, c);
            && s.settings == b.settings && s.active != []
            && s.target == B.Advance(b, c).target && s.targetValid == B.Advance(b, c).targetValid
  {
    hide B.Broken, B.NextTarget;
  }

  lemma CloseTarget(b: B.Basic)
    requires b.active != []
    ensures var s := B.Close(b).0;
            s.settings == b.settings && s.target == b.target && s.targetValid == b.targetValid
  {
    hide B.Describe, B.TargetCycles;
  }

  lemma AcceptTarget(b: B.Basic, c: Cycle)
    requires b.settings.enable && c.generation == b.settings.generation
    ensures var s := B.Accept(b, c).0;
            s.settings == b.settings && s.target == B.Advance(b, c).target && s.targetValid == B.Advance(b, c).targetValid
  {
    hide B.Close, B.Advance, B.Join, B.Admit;
    JoinTarget(b, c);
    CloseTarget(Joined(b, c));
  }

  // Accepted cycles of the running configuration, each starting after the one
  // before it and well within the 64-bit sample axis.
  ghost predicate Advancing(b: B.Basic, cycles: seq<Cycle>) {
    && b.settings.enable && b.settings.sampleRate > 0
    && (forall k :: 0 <= k < |cycles| ==> cycles[k].generation == b.settings.generation)
    && (forall k :: 0 <= k < |cycles| ==> cycles[k].firstSample + b.settings.sampleRate * 600 < B64)
    && forall k :: 0 < k < |cycles| ==> StartBefore(cycles, k) < cycles[k].firstSample
  }

  function StartBefore(cycles: seq<Cycle>, k: nat): int
    requires k <= |cycles|
  {
    if k == 0 then -1 else cycles[k - 1].firstSample
  }

  lemma GridStep(s: B.Basic, c: Cycle, start: u64, last: int)
    requires s.settings.enable && c.generation == s.settings.generation && s.settings.sampleRate > 0
    requires s.targetValid && OnGrid(s, start, last) && last < c.firstSample
    requires c.firstSample + s.settings.sampleRate * 600 < B64
    ensures var t := B.Accept(s, c).0;
            t.settings == s.settings && t.targetValid && OnGrid(t, start, c.firstSample)
  {
    AcceptTarget(s, c);
    PassesGridMark(s, c, start, last);
    B.AdvanceKeeps(s, c);
    hide B.Accept, B.Advance, MarkOf;
  }

  lemma {:induction false} TargetsOnGrid(b: B.Basic, start: u64, cycles: seq<Cycle>, k: nat)
    requires Advancing(b, cycles) && k <= |cycles| && b.targetValid && b.target == start
    ensures var s := C.AcceptAll(b, cycles[..k]).0;
            s.settings == b.settings && s.targetValid && OnGrid(s, start, StartBefore(cycles, k))
  {
    hide B.Accept, OnGrid;
    if k == 0 {
      UpdatedOnGrid(b, start);
    } else {
      TargetsOnGrid(b, start, cycles, k - 1);
      C.AcceptAllStep(b, cycles, k - 1);
      var s := C.AcceptAll(b, cycles[..k - 1]).0;
      assert StartBefore(cycles, k - 1) < cycles[k - 1].firstSample;
      hide C.AcceptAll;
      GridStep(s, cycles[k - 1], start, StartBefore(cycles, k - 1));
    }
  }

  lemma UpdatedOnGrid(b: B.Basic, start: u64)
    requires b.target == start
    ensures OnGrid(b, start, -1)
  {
    assert b.target == MarkOf(start, b.settings.sampleRate, 0);
  }

  // So from the cycles and the target update alone: after an update to `start`,
  // cycle k passes a mark exactly when some mark start + n * 600 s of the grid
  // lies after the start of cycle k - 1 and not after its own.
  lemma PassedOnGrid(b: B.Basic, start: u64, cycles: seq<Cycle>, k: nat)
    requires Advancing(b, cycles) && k < |cycles| && b.targetValid && b.target == start
    ensures var s := C.AcceptAll(b, cycles[..k]).0;
            B.Crosses(s, cycles[k]) <==>
            exists n: nat ::
              StartBefore(cycles, k) < MarkOf(start, b.settings.sampleRate, n) <= cycles[k].firstSample
  {
    TargetsOnGrid(b, start, cycles, k);
    assert StartBefore(cycles, k) < cycles[k].firstSample;
    var s := C.AcceptAll(b, cycles[..k]).0;
    PassesGridMark(s, cycles[k], start, StartBefore(cycles, k));
    hide C.AcceptAll, OnGrid, MarkOf;
  }

  // ---- The sample axis ----------------------------------------------------------------

  predicate Tiles(last: Cycle, c: Cycle) { c.firstSample == Add64(last.firstSample, last.sampleCount) }

  ghost predicate TilesAt(cycles: seq<Cycle>, k: nat)
    requires 0 < k < |cycles|
  {
    Tiles(cycles[k - 1], cycles[k])
  }

  // Cycles of at least one sample, end to end, that the 32-bit count of a
  // block holds.
  ghost predicate Seamless(cycles: seq<Cycle>) {
    && (forall k :: 0 <= k < |cycles| ==> cycles[k].sampleCount > 0)
    && (forall k :: 0 < k < |cycles| ==> TilesAt(cycles, k))
    && CycleSamples(cycles) < B32
  }

  lemma CycleSamplesUpTo(cycles: seq<Cycle>, k: nat)
    requires k < |cycles|
    ensures CycleSamples(cycles[..k + 1]) == CycleSamples(cycles[..k]) + cycles[k].sampleCount
  {
    assert cycles[..k + 1] == cycles[..k] + [cycles[k]];
    CycleSamplesAppend(cycles[..k], cycles[k]);
  }

  lemma {:induction false} StartsAt(cycles: seq<Cycle>, k: nat)
    requires Seamless(cycles) && k < |cycles|
    ensures cycles[k].firstSample == (cycles[0].firstSample + CycleSamples(cycles[..k])) % B64
  {
    if k > 0 {
      StartsAt(cycles, k - 1);
      assert TilesAt(cycles, k);
      CycleSamplesUpTo(cycles, k - 1);
      hide Seamless, CycleSamples;
      ModAdd(cycles[0].firstSample + CycleSamples(cycles[..k - 1]), cycles[k - 1].sampleCount, B64);
    }
  }

  lemma {:induction false} SamplesFrom(cycles: seq<Cycle>, k: nat, n: nat)
    requires Seamless(cycles) && k < n <= |cycles|
    ensures CycleSamples(cycles[..k]) < CycleSamples(cycles[..n])
  {
    CycleSamplesUpTo(cycles, n - 1);
    if k < n - 1 { SamplesFrom(cycles, k, n - 1); }
  }

  lemma Apart(first: u64, x: nat, y: nat)
    requires x < y < x + B64
    ensures (first + x) % B64 != (first + y) % B64
  {
  }

  lemma InsideStartsEarlier(cycles: seq<Cycle>, j: nat)
    requires Seamless(cycles) && 0 < j < |cycles|
    ensures cycles[j].firstSample != Add64(cycles[0].firstSample, CycleSamples(cycles))
  {
    StartsAt(cycles, j);
    SamplesFrom(cycles, j, |cycles|);
    assert cycles[..|cycles|] == cycles;
    assert CycleSamples(cycles) < B32;
    hide Seamless, CycleSamples;
    Apart(cycles[0].firstSample, CycleSamples(cycles[..j]), CycleSamples(cycles));
  }

  lemma NextStartsAtEnd(cycles: seq<Cycle>, c: Cycle)
    requires Seamless(cycles) && cycles != [] && Tiles(cycles[|cycles| - 1], c)
    ensures c.firstSample == Add64(cycles[0].firstSample, CycleSamples(cycles))
  {
    hide Seamless, CycleSamples;
    var n := |cycles| - 1;
    StartsAt(cycles, n);
    CycleSamplesUpTo(cycles, n);
    assert cycles[..n + 1] == cycles;
    ModAdd(cycles[0].firstSample + CycleSamples(cycles[..n]), cycles[n].sampleCount, B64);
  }

  // A block that resumes the one before it starts where that one ended exactly
  // when no mark fell inside the closed block.
  lemma StartsWhereEnded(block: Block, marks: seq<Mark>, c: Cycle, other: u8)
    requires B.Sound(block, other) && |marks| == |block.cycles| && Resumes(block, marks, c)
    requires Seamless(block.cycles)
    requires Succeeds(block.cycles[|block.cycles| - 1], c) ==> Tiles(block.cycles[|block.cycles| - 1], c)
    ensures c.firstSample == NextFirst(block.result) <==> !MarkInside(block.cycles, marks)
  {
    var cycles := block.cycles;
    assert block.result.sampleCount == CycleSamples(cycles);
    assert block.result.firstSample == cycles[0].firstSample;
    MarkedIsInside(cycles, marks);
    hide MarkInside, MarkedAt, Seamless, CycleSamples, B.Sound;
    var j := MarkedAt(cycles, marks);
    if j > 0 { InsideStartsEarlier(cycles, j); } else { NextStartsAtEnd(cycles, c); }
  }
}
