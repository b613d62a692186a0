/** The marks of closed blocks told from the target updates and the cycles alone,
    over whole runs. */
module UtcGrid {
  import opened Words
  import opened IntervalTypes
  import B = BasicTier
  import L = LongTiers
  import U = UtcMarks
  import M = TwoHourMarks
  import opened IntervalTree

  // A mark of the ten-minute grid through the latest target update lies after
  // the start of the cycle before this one, if there was one since that update,
  // and not after its own.
  ghost predicate OnMark(c: Cycle, m: U.Mark, rate: u32) {
    m.Mark? && exists n: nat :: m.before < U.MarkOf(m.start, rate, n) <= c.firstSample
  }

  ghost predicate Told(c: Cycle, m: U.Mark, rate: u32) { U.Passed(c, m) <==> OnMark(c, m, rate) }

  ghost predicate AllTold(cycles: seq<Cycle>, marks: seq<U.Mark>, rate: u32)
    requires |marks| == |cycles|
  {
    forall k :: 0 <= k < |cycles| ==> Told(cycles[k], marks[k], rate)
  }

  // The cycle before, within the block: where it started, unless the target was
  // updated between the two.
  ghost predicate Preceded(cycles: seq<Cycle>, marks: seq<U.Mark>, k: nat)
    requires |marks| == |cycles| && 0 < k < |cycles|
  {
    marks[k].Mark? ==> marks[k].before == -1 || marks[k].before == cycles[k - 1].firstSample
  }

  ghost predicate EachPreceded(cycles: seq<Cycle>, marks: seq<U.Mark>)
    requires |marks| == |cycles|
  {
    forall k :: 0 < k < |cycles| ==> Preceded(cycles, marks, k)
  }

  ghost predicate Gridded(cycles: seq<Cycle>, marks: seq<U.Mark>, rate: u32)
    requires |marks| == |cycles|
  {
    AllTold(cycles, marks, rate) && EachPreceded(cycles, marks)
  }

  // The open block is gridded, the target in force is its next mark, and what
  // the trace calls the cycle before is the block's newest.
  ghost predicate Open(b: B.Basic, t: U.Trace)
    requires |t.marks| == |b.active|
  {
    && Gridded(b.active, t.marks, b.settings.sampleRate)
    && U.OnGrid(b, t.start, t.before)
    && (b.active != [] ==> t.before == -1 || t.before == b.active[|b.active| - 1].firstSample)
  }

  // An accepted cycle starts after the one before it and well within the sample
  // axis, at a positive rate.
  predicate InOrder(b: B.Basic, t: U.Trace, c: Cycle) {
    b.targetValid ==>
      && b.settings.sampleRate > 0 && t.before < c.firstSample
      && c.firstSample + b.settings.sampleRate * 600 < B64
  }

  lemma GriddedExtends(cycles: seq<Cycle>, marks: seq<U.Mark>, rate: u32, c: Cycle, m: U.Mark)
    requires |marks| == |cycles| && Gridded(cycles, marks, rate) && Told(c, m, rate)
    requires cycles != [] && m.Mark? ==> m.before == -1 || m.before == cycles[|cycles| - 1].firstSample
    ensures Gridded(cycles + [c], marks + [m], rate)
  {
    hide Told;
    var all, marked := cycles + [c], marks + [m];
    forall k | 0 < k < |all| ensures Preceded(all, marked, k) {
      if k < |cycles| { assert Preceded(cycles, marks, k); }
    }
  }

  lemma GriddedSuffix(cycles: seq<Cycle>, marks: seq<U.Mark>, rate: u32, j: nat)
    requires |marks| == |cycles| && Gridded(cycles, marks, rate) && j <= |cycles|
    ensures Gridded(cycles[j..], marks[j..], rate)
  {
    hide Told;
    forall k | 0 <= k < |cycles| - j ensures Told(cycles[j..][k], marks[j..][k], rate) {
      assert Told(cycles[j + k], marks[j + k], rate);
    }
    forall k | 0 < k < |cycles| - j ensures Preceded(cycles[j..], marks[j..], k) {
      assert Preceded(cycles, marks, j + k);
    }
  }

  lemma NoneGridded(rate: u32)
    ensures Gridded([], [], rate)
  {
  }

  // The mark a cycle joins with is told by the grid, and the next target is on it.
  lemma InForceTold(b: B.Basic, t: U.Trace, c: Cycle)
    requires U.OnGrid(b, t.start, t.before) && InOrder(b, t, c)
    ensures Told(c, U.InForce(b, t), b.settings.sampleRate)
    ensures U.OnGrid(B.Advance(b, c), t.start, c.firstSample)
  {
    hide U.OnGrid, U.MarkOf;
    if b.targetValid {
      U.PassesGridMark(b, c, t.start, t.before);
    } else {
      NoTargetOnGrid(B.Advance(b, c), t.start, c.firstSample);
    }
  }

  lemma NoTargetOnGrid(b: B.Basic, start: u64, last: int)
    requires !b.targetValid
    ensures U.OnGrid(b, start, last)
  {
  }

  lemma SameGrid(s: B.Basic, t: B.Basic, start: u64, last: int)
    requires s.settings == t.settings && s.target == t.target && s.targetValid == t.targetValid
    requires U.OnGrid(t, start, last)
    ensures U.OnGrid(s, start, last)
  {
  }

  lemma JoinGridded(b: B.Basic, t: U.Trace, c: Cycle)
    requires U.Shadowed(b, t) && Open(b, t) && InOrder(b, t, c)
    ensures var j := U.Joined(b, c);
            && |U.JoinedMarks(t, b, c)| == |j.active| && j.active != []
            && j.active[|j.active| - 1] == c && j.settings == b.settings
            && Gridded(j.active, U.JoinedMarks(t, b, c), b.settings.sampleRate)
            && U.OnGrid(j, t.start, c.firstSample)
  {
    U.JoinShadowed(t, b, c);
    U.JoinTarget(b, c);
    InForceTold(b, t, c);
    NoneGridded(b.settings.sampleRate);
    hide U.OnGrid, Gridded, Told, U.Shadowed, U.Carried, B.Broken, B.NextTarget;
    var broken := B.Broken(b, c);
    var active, marks := if broken then [] else b.active, if broken then [] else t.marks;
    GriddedExtends(active, marks, b.settings.sampleRate, c, U.InForce(b, t));
    AdvancedOnGrid(U.Joined(b, c), b, c, t.start);
  }

  lemma AdvancedOnGrid(s: B.Basic, b: B.Basic, c: Cycle, start: u64)
    requires s.settings == b.settings && s.target == B.Advance(b, c).target
    requires s.targetValid == B.Advance(b, c).targetValid && U.OnGrid(B.Advance(b, c), start, c.firstSample)
    ensures U.OnGrid(s, start, c.firstSample)
  {
    B.AdvanceKeeps(b, c);
    SameGrid(s, B.Advance(b, c), start, c.firstSample);
    hide U.OnGrid, B.Advance;
  }

  // A block that closes hands its marks on; the block in its place keeps its own.
  lemma CloseGridded(b: B.Basic, t: U.Trace, marks: seq<U.Mark>)
    requires |marks| == |b.active| > 0 && b.shadow == U.Carried(b.active, marks)
    requires Gridded(b.active, marks, b.settings.sampleRate) && U.OnGrid(b, t.start, t.before)
    requires t.before == b.active[|b.active| - 1].firstSample
    ensures var (after, closed) := B.Close(b);
            var u := U.Close(t, b.active, B.TargetCycles(b), marks);
            && |u.marks| == |after.active| && Open(after, u)
            && u.closed == t.closed + (if closed.Some? then [marks] else [])
            && (closed.Some? ==>
                  closed.value.cycles == b.active && closed.value.result.sampleRate == b.settings.sampleRate)
  {
    GriddedSuffix(b.active, marks, b.settings.sampleRate, U.MarkedAt(b.active, marks));
    NoneGridded(b.settings.sampleRate);
    U.CloseTarget(b);
    SameGrid(B.Close(b).0, b, t.start, t.before);
    hide Gridded, U.OnGrid, U.MarkedAt, Fold, B.AllLocked, B.AnyFallback;
  }

  // ---- Closed blocks ---------------------------------------------------------------

  ghost predicate GriddedAt(blocks: seq<Block>, closed: seq<seq<U.Mark>>, n: nat)
    requires U.Paired(blocks, closed) && n < |blocks|
  {
    Gridded(blocks[n].cycles, closed[n], blocks[n].result.sampleRate)
  }

  ghost predicate ClosedGridded(blocks: seq<Block>, closed: seq<seq<U.Mark>>) {
    U.Paired(blocks, closed) && forall n :: 0 <= n < |blocks| ==> GriddedAt(blocks, closed, n)
  }

  lemma ClosedAppend(blocks: seq<Block>, closed: seq<seq<U.Mark>>, block: Block, marks: seq<U.Mark>)
    requires ClosedGridded(blocks, closed) && |marks| == |block.cycles| > 0
    requires Gridded(block.cycles, marks, block.result.sampleRate)
    ensures ClosedGridded(blocks + [block], closed + [marks])
  {
    hide Gridded;
    var all, marked := blocks + [block], closed + [marks];
    forall n | 0 <= n < |all| ensures GriddedAt(all, marked, n) {
      if n < |blocks| { assert GriddedAt(blocks, closed, n); }
    }
  }

  // What holds of a whole run.
  ghost predicate Held(b: B.Basic, t: U.Trace, blocks: seq<Block>) {
    U.Resuming(b, t, blocks) && Open(b, t) && ClosedGridded(blocks, t.closed)
  }

  predicate Admits(b: B.Basic, c: Cycle) { b.settings.enable && c.generation == b.settings.generation }

  lemma JoinedGridded(b: B.Basic, t: U.Trace, blocks: seq<Block>, c: Cycle)
    requires B.Inv(b) && Held(b, t, blocks) && Admits(b, c) && InOrder(b, t, c)
    ensures var (after, closed) := B.Accept(b, c);
            && |U.Offer(t, b, c).marks| == |after.active| && Open(after, U.Offer(t, b, c))
            && ClosedGridded(blocks + (if closed.Some? then [closed.value] else []), U.Offer(t, b, c).closed)
  {
    hide Open, ClosedGridded, Gridded, B.Close, B.Inv;
    hide U.Close, U.Joined, U.JoinedMarks, U.Resuming, U.OnGrid, U.Carried;
    OpenParts(b, t, blocks);
    JoinGridded(b, t, c);
    U.JoinShadowed(t, b, c);
    var j, marks := U.Joined(b, c), U.JoinedMarks(t, b, c);
    CloseGridded(j, t.(before := c.firstSample), marks);
    var (after, closed) := B.Close(j);
    if closed.Some? { ClosedAppend(blocks, t.closed, closed.value, marks); }
    assert blocks + [] == blocks && t.closed + [] == t.closed;
    AcceptIsClose(b, t, c);
  }

  lemma OpenParts(b: B.Basic, t: U.Trace, blocks: seq<Block>)
    requires U.Resuming(b, t, blocks)
    ensures U.Shadowed(b, t)
  {
    hide U.EachResumes, U.Waits;
  }

  lemma AcceptIsClose(b: B.Basic, t: U.Trace, c: Cycle)
    requires Admits(b, c) && |t.marks| == |b.active|
    requires |U.JoinedMarks(t, b, c)| == |U.Joined(b, c).active| > 0
    ensures B.Accept(b, c) == B.Close(U.Joined(b, c))
    ensures U.Offer(t, b, c) ==
      U.Close(t.(before := c.firstSample), U.Joined(b, c).active, B.TargetCycles(U.Joined(b, c)), U.JoinedMarks(t, b, c))
  {
    hide B.Close, U.Close, U.JoinedMarks, B.Join, B.Admit;
  }

  lemma OfferHeld(b: B.Basic, t: U.Trace, blocks: seq<Block>, c: Cycle)
    requires B.Inv(b) && Held(b, t, blocks) && (Admits(b, c) ==> InOrder(b, t, c))
    ensures var (after, closed) := B.Accept(b, c);
            Held(after, U.Offer(t, b, c), blocks + if closed.Some? then [closed.value] else [])
  {
    U.OfferResumes(b, t, blocks, c);
    if Admits(b, c) {
      JoinedGridded(b, t, blocks, c);
      hide U.Resuming, Open, ClosedGridded, B.Accept, U.Offer;
    } else {
      NoneGridded(b.settings.sampleRate);
      SameGrid(B.Accept(b, c).0, b, t.start, t.before);
      assert blocks + [] == blocks;
      hide U.Resuming, ClosedGridded, Gridded, U.OnGrid;
    }
  }

  // ---- Commands ------------------------------------------------------------------------

  lemma TargetHeld(b: B.Basic, t: U.Trace, blocks: seq<Block>, c: Context)
    requires Held(b, t, blocks)
    ensures Held(B.OnTarget(b, c), U.OnTarget(t, c), blocks)
  {
    U.CommandsResume(b, t, blocks, c);
    var u := U.OnTarget(t, c);
    forall k | 0 <= k < |u.marks| ensures u.marks[k] == U.NoMark { }
    assert U.MarkOf(c.target, b.settings.sampleRate, 0) == c.target;
    hide U.Resuming, ClosedGridded, U.MarkOf;
  }

  // A configuration keeps the grid if it keeps the rate or comes with a target.
  lemma ApplyHeld(b: B.Basic, t: U.Trace, blocks: seq<Block>, c: Context)
    requires Held(b, t, blocks)
    requires c.sampleRate == b.settings.sampleRate || (b.target == t.start && t.before < t.start)
    ensures Held(B.OnApply(b, c), U.OnApply(t), blocks)
  {
    U.CommandsResume(b, t, blocks, c);
    NoneGridded(c.sampleRate);
    assert U.MarkOf(t.start, c.sampleRate, 0) == t.start;
    hide U.Resuming, ClosedGridded, U.MarkOf, Gridded;
  }

  // ---- Runs -------------------------------------------------------------------------------

  // A packet in order: a new sample rate comes with a new target, and an accepted
  // cycle starts after the one before it.
  predicate Regular(s: State, t: U.Trace, p: Packet) {
    && (p.context.apply == s.basic.applySeen || p.context.targetUpdate != s.ten.updateSeen
        || p.context.sampleRate == s.basic.settings.sampleRate)
    && (Admits(Observed(s, p.context).basic, p.cycle) ==>
        InOrder(Observed(s, p.context).basic, M.Told(t, s, p.context), p.cycle))
  }

  lemma ObservedHeld(s: State, t: U.Trace, blocks: seq<Block>, p: Packet)
    requires Held(s.basic, t, blocks) && Regular(s, t, p)
    ensures Held(Observed(s, p.context).basic, M.Told(t, s, p.context), blocks)
  {
    var c := p.context;
    TargetHeld(s.basic, t, blocks, c);
    var targeted := ObserveTarget(s, c).basic;
    var told := if c.targetUpdate == s.ten.updateSeen then t else U.OnTarget(t, c);
    hide Held;
    if c.apply != s.basic.applySeen { ApplyHeld(targeted, told, blocks, c); }
  }

  ghost predicate OrderlyAt(other: u8, inputs: seq<Option<Packet>>, k: nat)
    requires k < |inputs|
  {
    var s := Run(other, inputs[..k]).0;
    !M.Deferred(s.pending) && inputs[k].Some? ==>
      Regular(s, M.HistoryOf(other, inputs[..k]).trace, inputs[k].value)
  }

  ghost predicate Orderly(other: u8, inputs: seq<Option<Packet>>) {
    forall k :: 0 <= k < |inputs| ==> OrderlyAt(other, inputs, k)
  }

  lemma ConsumeKeeps(s: State, h: M.History, log: seq<Record>, p: Packet)
    requires Inv(s, log) && Idle(s) && Held(s.basic, h.trace, Basics(log)) && Regular(s, h.trace, p)
    ensures var (t, more) := Consume(s, p);
            var told, observed := M.Told(h.trace, s, p.context), Observed(s, p.context).basic;
            |told.marks| == |observed.active| && Held(t.basic, U.Offer(told, observed, p.cycle), Basics(log + more))
  {
    hide Inv, B.Accept, U.Offer, M.Told, Observed, Held, Basics, Settle, B.Inv;
    ObservedHeld(s, h.trace, Basics(log), p);
    M.ObservedInv(s, log, p.context);
    var observed := Observed(s, p.context);
    var told := M.Told(h.trace, s, p.context);
    HeldLength(observed.basic, told, Basics(log));
    OfferHeld(observed.basic, told, Basics(log), p.cycle);
    var (basic, closed) := B.Accept(observed.basic, p.cycle);
    M.SettleBasics(observed, basic, closed, log);
    assert Consume(s, p) == Settle(observed, basic, closed);
  }

  lemma HeldLength(b: B.Basic, t: U.Trace, blocks: seq<Block>)
    requires Held(b, t, blocks)
    ensures |t.marks| == |b.active|
  {
  }

  lemma NextKeeps(s: State, h: M.History, log: seq<Record>, input: Option<Packet>)
    requires Inv(s, log) && M.Held(s, h, Basics(log)) && Held(s.basic, h.trace, Basics(log))
    requires !M.Deferred(s.pending) && input.Some? ==> Regular(s, h.trace, input.value)
    ensures var (t, more) := Invoke(s, input);
            Held(t.basic, M.Next(h, s, input, Basics(log)).trace, Basics(log + more))
  {
    hide Inv, L.FoldTwo, Basics, Held, M.Held, Consume, M.Told, Observed, U.Offer, Regular;
    if M.Deferred(s.pending) || input.None? {
      M.DeferredKeeps(s, log, input);
      hide Invoke;
    } else {
      ConsumeKeeps(s, h, log, input.value);
    }
  }

  lemma {:induction false} EveryMarkTold(other: u8, inputs: seq<Option<Packet>>)
    requires Orderly(other, inputs)
    ensures var (s, log) := Run(other, inputs); Held(s.basic, M.HistoryOf(other, inputs).trace, Basics(log))
  {
    if inputs == [] {
      NothingHeld(other);
    } else {
      var n := |inputs| - 1;
      var init := inputs[..n];
      OrderlyInit(other, inputs);
      EveryMarkTold(other, init);
      EveryRun(other, init);
      var (s, log) := Run(other, init);
      NextKeeps(s, M.HistoryOf(other, init), log, inputs[n]);
      hide Inv, AllJustified, Invoke, M.Next, Basics, Held, Orderly, Regular;
    }
  }

  lemma NothingHeld(other: u8)
    ensures Held(Initial(other).basic, U.NoTrace(), Basics([]))
    ensures Run(other, []) == (Initial(other), []) && M.HistoryOf(other, []).trace == U.NoTrace()
  {
    U.CarriedNone();
    NoneGridded(32000);
  }

  lemma OrderlyInit(other: u8, inputs: seq<Option<Packet>>)
    requires Orderly(other, inputs) && inputs != []
    ensures Orderly(other, inputs[..|inputs| - 1])
    ensures OrderlyAt(other, inputs, |inputs| - 1)
  {
    hide Regular, Run, M.HistoryOf;
    var init := inputs[..|inputs| - 1];
    forall k | 0 <= k < |init| ensures OrderlyAt(other, init, k) {
      assert OrderlyAt(other, inputs, k);
      assert init[..k] == inputs[..k];
    }
  }

  // ---- Marks inside blocks ----------------------------------------------------------------

  // Some cycle of the block but the first starts at or after a mark of the grid
  // that the cycle before it did not reach.
  ghost predicate GridInside(block: Block, marks: seq<U.Mark>)
    requires |marks| == |block.cycles|
  {
    exists j :: 0 < j < |block.cycles| && OnMark(block.cycles[j], marks[j], block.result.sampleRate)
  }

  // Over every orderly run, whether a mark fell inside a published block is told
  // from the target updates and the cycles.
  lemma InsideOnGrid(other: u8, inputs: seq<Option<Packet>>, n: nat)
    requires Orderly(other, inputs) && n < |Basics(Run(other, inputs).1)|
    ensures var (blocks, closed) := (Basics(Run(other, inputs).1), M.HistoryOf(other, inputs).trace.closed);
            && U.Paired(blocks, closed)
            && (U.MarkInside(blocks[n].cycles, closed[n]) <==> GridInside(blocks[n], closed[n]))
            && EachPreceded(blocks[n].cycles, closed[n])
  {
    EveryMarkTold(other, inputs);
    var blocks, closed := Basics(Run(other, inputs).1), M.HistoryOf(other, inputs).trace.closed;
    assert GriddedAt(blocks, closed, n);
    hide Run, M.HistoryOf, Basics, Held, ClosedGridded;
    GriddedInside(blocks[n], closed[n]);
  }

  lemma GriddedInside(block: Block, marks: seq<U.Mark>)
    requires |marks| == |block.cycles| && Gridded(block.cycles, marks, block.result.sampleRate)
    ensures U.MarkInside(block.cycles, marks) <==> GridInside(block, marks)
  {
    hide OnMark, U.Passed;
    if U.MarkInside(block.cycles, marks) {
      var j :| 0 < j < |block.cycles| && U.Passed(block.cycles[j], marks[j]);
      assert Told(block.cycles[j], marks[j], block.result.sampleRate);
    }
    if GridInside(block, marks) {
      var j :| 0 < j < |block.cycles| && OnMark(block.cycles[j], marks[j], block.result.sampleRate);
      assert Told(block.cycles[j], marks[j], block.result.sampleRate);
    }
  }

  // So over every orderly run the two-hour interval is extended by the next
  // ten-minute interval exactly when it was not complete, the configuration is
  // the same and no mark of the grid fell inside the block between them.
  lemma TwoHourGrowsOnGrid(other: u8, inputs: seq<Option<Packet>>, k: nat)
    requires Orderly(other, inputs)
    requires var log := Run(other, inputs).1;
             && k + 1 < |Intervals(log)| && M.Successive(log, k)
             && 0 < M.Ends(log)[k] < |Basics(log)| && M.SeamAt(Basics(log), M.Ends(log)[k])
    ensures var (log, h) := (Run(other, inputs).1, M.HistoryOf(other, inputs));
            var (i, next) := (Intervals(log)[k], Intervals(log)[k + 1]);
            var n := M.Ends(log)[k];
            && |h.grown| == |Intervals(log)| && U.Paired(Basics(log), h.trace.closed)
            && i.blocks != [] && next.blocks != []
            && i.blocks[|i.blocks| - 1] == Basics(log)[n - 1]
            && h.grown[k + 1] ==
                 if |h.grown[k]| != L.INTERVALS
                    && SameConfiguration(i.blocks[0].result, next.blocks[0].result)
                    && !GridInside(Basics(log)[n - 1], h.trace.closed[n - 1])
                 then h.grown[k] + [next] else [next]
  {
    hide Run, M.HistoryOf, Intervals, Basics, M.Ends, U.MarkInside, GridInside, M.SeamAt, M.Successive, Orderly;
    hide SameConfiguration, EachPreceded;
    M.TwoHourGrows(other, inputs, k);
    InsideOnGrid(other, inputs, M.Ends(Run(other, inputs).1)[k] - 1);
  }
}
