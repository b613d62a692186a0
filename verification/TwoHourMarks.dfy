/** The two-hour interval over whole runs: it grows by the next ten-minute
    interval exactly when the UTC mark between them fell on a block start. */
module TwoHourMarks {
  import opened Words
  import opened IntervalTypes
  import B = BasicTier
  import A = AggregateTier
  import L = LongTiers
  import U = UtcMarks
  import opened IntervalTree

  // What a run leaves behind besides its records: the marks of the blocks, and
  // the parts of the two-hour interval just after each ten-minute record.
  datatype History = History(trace: U.Trace, grown: seq<seq<L.Interval>>)

  function Told(t: U.Trace, s: State, c: Context): U.Trace {
    var told := if c.targetUpdate == s.ten.updateSeen then t else U.OnTarget(t, c);
    if c.apply == s.basic.applySeen then told else U.OnApply(told)
  }

  lemma ToldResumes(s: State, t: U.Trace, blocks: seq<Block>, c: Context)
    requires U.Resuming(s.basic, t, blocks)
    ensures U.Resuming(Observed(s, c).basic, Told(t, s, c), blocks)
  {
    U.CommandsResume(s.basic, t, blocks, c);
    U.CommandsResume(ObserveTarget(s, c).basic, if c.targetUpdate == s.ten.updateSeen then t else U.OnTarget(t, c), blocks, c);
    hide U.Resuming, B.OnTarget, B.OnApply, U.OnTarget, U.OnApply;
  }

  ghost predicate Held(s: State, h: History, blocks: seq<Block>) { U.Resuming(s.basic, h.trace, blocks) }

  ghost function Next(h: History, s: State, input: Option<Packet>, blocks: seq<Block>): History
    requires Held(s, h, blocks)
  {
    if s.pending.aggregate then h
    else if s.pending.ten then h.(grown := h.grown + [L.FoldTwo(s.two, L.IntervalOf(s.ten)).parts])
    else if s.pending.two || s.pending.openTen || s.pending.openTwo || input.None? then h
    else
      var p := input.value;
      ToldResumes(s, h.trace, blocks, p.context);
      h.(trace := U.Offer(Told(h.trace, s, p.context), Observed(s, p.context).basic, p.cycle))
  }

  lemma SettleBasics(s: State, basic: B.Basic, closed: Option<Block>, log: seq<Record>)
    ensures var (t, more) := Settle(s, basic, closed);
            t.basic == basic && Basics(log + more) == Basics(log) + if closed.Some? then [closed.value] else []
  {
    hide L.FoldTen, A.Fold, L.Reaches;
    if closed.Some? { LogAppend(log, BasicRecord(closed.value)); } else { assert log + [] == log; }
    hide Basics;
    assert Basics(log) + [] == Basics(log);
  }

  lemma ConsumeHeld(s: State, h: History, log: seq<Record>, p: Packet)
    requires Inv(s, log) && Idle(s) && Held(s, h, Basics(log))
    ensures var (t, more) := Consume(s, p);
            var told := Told(h.trace, s, p.context);
            var observed := Observed(s, p.context).basic;
            && |told.marks| == |observed.active|
            && U.Resuming(t.basic, U.Offer(told, observed, p.cycle), Basics(log + more))
  {
    hide Inv, B.Accept, U.Offer, Told, Observed, U.EachResumes, U.Waits, Basics, Settle, B.Inv;
    ToldResumes(s, h.trace, Basics(log), p.context);
    ObservedInv(s, log, p.context);
    var observed := Observed(s, p.context);
    U.OfferResumes(observed.basic, Told(h.trace, s, p.context), Basics(log), p.cycle);
    var (basic, closed) := B.Accept(observed.basic, p.cycle);
    SettleBasics(observed, basic, closed, log);
    assert Consume(s, p) == Settle(observed, basic, closed);
    hide U.Resuming;
  }

  lemma ObservedInv(s: State, log: seq<Record>, c: Context)
    requires Inv(s, log) && Idle(s)
    ensures B.Inv(Observed(s, c).basic)
  {
    ObserveTargetPreserves(s, log, c);
    ObserveApplyPreserves(ObserveTarget(s, c), log, c);
    hide ObserveTarget, ObserveApply, B.Inv, A.Inv, L.InvTen, L.InvTwo, Armed, Logged, Counted;
  }

  predicate Deferred(p: Pending) { p.aggregate || p.ten || p.two || p.openTen || p.openTwo }

  // A deferred pass leaves the block assembly alone and publishes no block.
  lemma DeferredKeeps(s: State, log: seq<Record>, input: Option<Packet>)
    requires Deferred(s.pending) || input.None?
    ensures var (t, more) := Invoke(s, input); t.basic == s.basic && Basics(log + more) == Basics(log)
  {
    hide L.FoldTwo, L.Cascades, Basics, Consume;
    var more := Invoke(s, input).1;
    assert |more| <= 1;
    if more == [] {
      assert log + more == log;
    } else {
      assert !more[0].BasicRecord?;
      LogAppend(log, more[0]);
      assert more == [more[0]];
    }
  }

  lemma NextHeld(s: State, h: History, log: seq<Record>, input: Option<Packet>)
    requires Inv(s, log) && Held(s, h, Basics(log))
    ensures var (t, more) := Invoke(s, input);
            Held(t, Next(h, s, input, Basics(log)), Basics(log + more))
  {
    hide Inv, L.FoldTwo, Basics, U.Resuming, Consume, Told, Observed, U.Offer;
    if Deferred(s.pending) || input.None? {
      DeferredKeeps(s, log, input);
      hide Invoke;
    } else {
      ConsumeHeld(s, h, log, input.value);
    }
  }

  // ---- Whole runs -------------------------------------------------------------

  ghost function HistoryOf(other: u8, inputs: seq<Option<Packet>>): (h: History)
    ensures Held(Run(other, inputs).0, h, Basics(Run(other, inputs).1))
  {
    if inputs == [] then
      NothingHeld(other);
      History(U.NoTrace(), [])
    else
      var init := inputs[..|inputs| - 1];
      EveryRun(other, init);
      NextHeld(Run(other, init).0, HistoryOf(other, init), Run(other, init).1, inputs[|inputs| - 1]);
      Next(HistoryOf(other, init), Run(other, init).0, inputs[|inputs| - 1], Basics(Run(other, init).1))
  }

  lemma NothingHeld(other: u8)
    ensures Held(Initial(other), History(U.NoTrace(), []), Basics([]))
  {
    U.CarriedNone();
  }

  // In every run, a block that follows no discontinuity starts at the last
  // cycle of the block before it that arrived at its mark, and after that block
  // when there is none.
  lemma BlocksResume(other: u8, inputs: seq<Option<Packet>>, n: nat)
    requires 0 < n < |Basics(Run(other, inputs).1)|
    ensures var (blocks, closed) := (Basics(Run(other, inputs).1), HistoryOf(other, inputs).trace.closed);
            && U.Paired(blocks, closed)
            && (blocks[n].result.first || U.Resumes(blocks[n - 1], closed[n - 1], blocks[n].cycles[0]))
  {
    var blocks, closed := Basics(Run(other, inputs).1), HistoryOf(other, inputs).trace.closed;
    assert U.EachResumes(blocks, closed);
    assert U.ResumesAt(blocks, closed, n);
  }

  // The next cycle after a block, if it is numbered next, is next on the sample
  // axis as well.
  ghost predicate SeamAt(blocks: seq<Block>, n: nat)
    requires 0 < n < |blocks|
  {
    var cycles := blocks[n - 1].cycles;
    && cycles != [] && blocks[n].cycles != [] && U.Seamless(cycles)
    && (U.Succeeds(cycles[|cycles| - 1], blocks[n].cycles[0]) ==>
        U.Tiles(cycles[|cycles| - 1], blocks[n].cycles[0]))
  }

  // So on a seamless sample axis it starts where the block before it ended
  // exactly when no mark fell inside that block.
  lemma BlocksAbut(other: u8, inputs: seq<Option<Packet>>, n: nat)
    requires var blocks := Basics(Run(other, inputs).1);
             0 < n < |blocks| && !blocks[n].result.first && SeamAt(blocks, n)
    ensures var (blocks, closed) := (Basics(Run(other, inputs).1), HistoryOf(other, inputs).trace.closed);
            && U.Paired(blocks, closed)
            && (blocks[n].result.firstSample == NextFirst(blocks[n - 1].result)
                <==> !U.MarkInside(blocks[n - 1].cycles, closed[n - 1]))
  {
    hide Run, HistoryOf, Inv, AllJustified, Basics, U.Resumes, U.MarkInside, B.Sound, U.Seamless, Held;
    BlocksResume(other, inputs, n);
    EveryRun(other, inputs);
    var blocks, closed := Basics(Run(other, inputs).1), HistoryOf(other, inputs).trace.closed;
    BasicsSound(Run(other, inputs).1, other, n - 1);
    BasicsSound(Run(other, inputs).1, other, n);
    SoundStart(blocks[n], other);
    U.StartsWhereEnded(blocks[n - 1], closed[n - 1], blocks[n].cycles[0], other);
  }

  lemma SoundStart(b: Block, other: u8)
    requires B.Sound(b, other)
    ensures b.cycles != [] && b.result.firstSample == b.cycles[0].firstSample
  {
  }

  lemma {:induction false} BasicsSound(log: seq<Record>, other: u8, n: nat)
    requires AllJustified(log, other) && n < |Basics(log)|
    ensures B.Sound(Basics(log)[n], other)
  {
    hide B.Sound;
    InitJustified(log, other);
    if n < |Basics(log[..|log| - 1])| { BasicsSound(log[..|log| - 1], other, n); }
  }

  // ---- The two-hour interval after each ten-minute record --------------------------

  // Nothing since the last ten-minute record keeps the next from being joined.
  ghost predicate Calm(s: State) {
    !s.ten.contaminated && !s.basic.discontinuity && AllEligible(s.ten.since)
  }

  // What the twelfth part leaves open: nothing.
  function Open(parts: seq<L.Interval>): seq<L.Interval> {
    if |parts| == L.INTERVALS then [] else parts
  }

  ghost predicate GrowsAt(intervals: seq<L.Interval>, grown: seq<seq<L.Interval>>, k: nat)
    requires 0 < k < |intervals| == |grown|
  {
    L.Cascades(intervals[k]) && |intervals[k].since| <= B16 ==>
      grown[k] == L.FoldTwo(L.TwoHour(Open(grown[k - 1]), 0), intervals[k]).parts
  }

  // A cascaded interval is the last part just after its record.
  ghost predicate EndsAt(intervals: seq<L.Interval>, grown: seq<seq<L.Interval>>, k: nat)
    requires k < |intervals| == |grown|
  {
    && intervals[k].number == (k + 1) % B32
    && (L.Cascades(intervals[k]) ==> grown[k] != [] && grown[k][|grown[k]| - 1] == intervals[k])
  }

  ghost predicate EachGrows(intervals: seq<L.Interval>, grown: seq<seq<L.Interval>>) {
    && |intervals| == |grown|
    && (forall k :: 0 <= k < |intervals| ==> EndsAt(intervals, grown, k))
    && (forall k :: 0 < k < |intervals| ==> GrowsAt(intervals, grown, k))
  }

  ghost predicate Growing(s: State, intervals: seq<L.Interval>, grown: seq<seq<L.Interval>>) {
    && EachGrows(intervals, grown)
    && s.ten.sequence == |intervals| % B32
    && (s.pending.ten ==> !s.basic.discontinuity)
    && (intervals != [] && Calm(s) ==>
        s.two.parts == if s.pending.two then grown[|grown| - 1] else Open(grown[|grown| - 1]))
  }

  lemma GrowsAppend(intervals: seq<L.Interval>, grown: seq<seq<L.Interval>>, i: L.Interval, parts: seq<L.Interval>)
    requires EachGrows(intervals, grown)
    requires EndsAt(intervals + [i], grown + [parts], |intervals|)
    requires intervals != [] ==> GrowsAt(intervals + [i], grown + [parts], |intervals|)
    ensures EachGrows(intervals + [i], grown + [parts])
  {
    hide L.FoldTwo, L.Cascades;
    var all, after := intervals + [i], grown + [parts];
    forall k | 0 <= k < |all| ensures EndsAt(all, after, k) {
      if k < |intervals| { assert EndsAt(intervals, grown, k); }
    }
    forall k | 0 < k < |all| ensures GrowsAt(all, after, k) {
      if k < |intervals| { assert GrowsAt(intervals, grown, k); }
    }
  }

  // An interval that may be cascaded found the tier calm.
  lemma CascadesIsCalm(s: State)
    requires L.InvTen(s.ten) && !s.basic.discontinuity
    requires L.Cascades(L.IntervalOf(s.ten)) && |s.ten.since| <= B16
    ensures Calm(s)
  {
  }

  lemma FoldTwoEnds(w: L.TwoHour, i: L.Interval)
    requires L.Cascades(i)
    ensures var parts := L.FoldTwo(w, i).parts; parts != [] && parts[|parts| - 1] == i
    ensures L.FoldTwo(w, i).parts == L.FoldTwo(L.TwoHour(w.parts, 0), i).parts
  {
    hide L.Cascades, L.Abuts;
  }

  lemma NextEnds(s: State, intervals: seq<L.Interval>, grown: seq<seq<L.Interval>>)
    requires |intervals| == |grown| && s.ten.sequence == |intervals| % B32
    ensures var i := L.IntervalOf(s.ten);
            EndsAt(intervals + [i], grown + [L.FoldTwo(s.two, i).parts], |intervals|)
  {
    var i := L.IntervalOf(s.ten);
    if L.Cascades(i) { FoldTwoEnds(s.two, i); }
    hide L.FoldTwo, L.Cascades;
  }

  lemma NextGrows(s: State, intervals: seq<L.Interval>, grown: seq<seq<L.Interval>>)
    requires Growing(s, intervals, grown) && L.InvTen(s.ten) && s.pending.ten && !s.pending.two
    requires intervals != []
    ensures var i := L.IntervalOf(s.ten);
            GrowsAt(intervals + [i], grown + [L.FoldTwo(s.two, i).parts], |intervals|)
  {
    hide L.FoldTwo, L.InvTen, EachGrows, Calm, L.Cascades;
    var i := L.IntervalOf(s.ten);
    if L.Cascades(i) && |i.since| <= B16 {
      CascadesIsCalm(s);
      FoldTwoEnds(s.two, i);
    }
    assert |intervals| == |grown| by { EachLength(intervals, grown); }
  }

  lemma EachLength(intervals: seq<L.Interval>, grown: seq<seq<L.Interval>>)
    requires EachGrows(intervals, grown)
    ensures |intervals| == |grown|
  {
    hide L.FoldTwo;
  }

  lemma TenWaits(s: State, log: seq<Record>)
    requires Inv(s, log) && s.pending.ten
    ensures L.InvTen(s.ten) && !s.pending.two
  {
    hide B.Inv, A.Inv, L.InvTen, L.InvTwo, L.Reached, Logged, Counted;
  }

  lemma FinaliseTenGrows(s: State, log: seq<Record>, h: History)
    requires Inv(s, log) && s.pending.ten && Growing(s, Intervals(log), h.grown)
    ensures var (t, more) := FinaliseTen(s);
            Growing(t, Intervals(log + more), h.grown + [L.FoldTwo(s.two, L.IntervalOf(s.ten)).parts])
  {
    hide L.FoldTwo, L.Cascades, EachGrows, GrowsAt, EndsAt, Intervals, Inv, L.InvTen, AllEligible;
    var i, intervals := L.IntervalOf(s.ten), Intervals(log);
    TenWaits(s, log);
    LogAppend(log, TenMinuteRecord(i));
    EachLength(intervals, h.grown);
    NextEnds(s, intervals, h.grown);
    if intervals != [] { NextGrows(s, intervals, h.grown); }
    GrowsAppend(intervals, h.grown, i, L.FoldTwo(s.two, i).parts);
  }

  // ---- A packet cannot restore calm -----------------------------------------------

  lemma AcceptFlags(b: B.Basic, c: Cycle)
    ensures var (after, closed) := B.Accept(b, c);
            if closed.Some? then !after.discontinuity && closed.value.result.first == U.Joined(b, c).discontinuity
            else b.discontinuity ==> after.discontinuity
    ensures b.discontinuity ==> U.Joined(b, c).discontinuity
  {
    U.JoinDiscontinuity(b, c);
    hide B.Join, B.Admit, Fold, B.AllLocked, B.AnyFallback;
  }

  lemma GatherStays(t: L.TenMinute, b: Block)
    ensures var u := L.FoldTen(t, b);
            && (t.contaminated ==> u.contaminated) && u.sequence == t.sequence
            && u.since == t.since + [b]
            && (AllEligible(u.since) ==> AllEligible(t.since) && !b.result.first)
  {
    L.FoldTenFields(t, b);
    var u := L.FoldTen(t, b);
    assert u.contaminated == L.Gather(t, b).contaminated;
    if AllEligible(u.since) {
      assert u.since[|t.since|] == b;
      forall k | 0 <= k < |t.since| ensures Eligible(t.since[k].result) { assert u.since[k] == t.since[k]; }
    }
    hide L.FoldTen;
  }

  lemma ConsumeCalm(s: State, p: Packet)
    requires Idle(s)
    ensures var t := Consume(s, p).0;
            && t.ten.sequence == s.ten.sequence && !t.pending.two
            && (t.pending.ten ==> !t.basic.discontinuity)
            && (Calm(t) ==> Calm(s) && t.two == s.two)
  {
    hide L.FoldTen, AllEligible, B.Accept, L.Reaches, A.Fold;
    var observed := Observed(s, p.context);
    AcceptFlags(observed.basic, p.cycle);
    var (basic, closed) := B.Accept(observed.basic, p.cycle);
    if closed.Some? { GatherStays(observed.ten, closed.value); }
    hide U.Joined;
  }

  lemma ConsumeGrows(s: State, log: seq<Record>, h: History, p: Packet)
    requires Idle(s) && Growing(s, Intervals(log), h.grown)
    ensures var (t, more) := Consume(s, p); Growing(t, Intervals(log + more), h.grown)
  {
    ConsumeCalm(s, p);
    var (t, more) := Consume(s, p);
    assert |more| <= 1;
    if more == [] { assert log + more == log; } else { LogAppend(log, more[0]); assert more == [more[0]]; }
    hide EachGrows, Calm, Intervals, Observed, B.Accept, Distribute;
  }

  lemma FinaliseTwoGrows(s: State, log: seq<Record>, h: History)
    requires Inv(s, log) && s.pending.two && Growing(s, Intervals(log), h.grown)
    ensures var (t, more) := FinaliseTwo(s); Growing(t, Intervals(log + more), h.grown)
  {
    hide EachGrows, Intervals, L.InvTen, L.InvTwo, A.Inv, B.Inv, Logged, Counted, AllEligible;
    LogAppend(log, FinaliseTwo(s).1[0]);
  }

  lemma OthersGrow(s: State, log: seq<Record>, h: History)
    requires Growing(s, Intervals(log), h.grown) && !s.pending.ten && !s.pending.two
    requires Deferred(s.pending)
    ensures var (t, more) := Invoke(s, None); Growing(t, Intervals(log + more), h.grown)
  {
    hide EachGrows, Intervals, AllEligible, L.FoldTwo, Consume;
    LogAppend(log, Invoke(s, None).1[0]);
    assert |Invoke(s, None).1| == 1;
  }

  lemma AggregateGrows(s: State, log: seq<Record>, h: History)
    requires Growing(s, Intervals(log), h.grown) && s.pending.aggregate
    ensures var (t, more) := FinaliseAggregate(s); Growing(t, Intervals(log + more), h.grown)
  {
    hide EachGrows, Intervals, AllEligible;
    LogAppend(log, FinaliseAggregate(s).1[0]);
  }

  lemma NextGrown(s: State, log: seq<Record>, h: History, input: Option<Packet>)
    requires Inv(s, log) && Held(s, h, Basics(log)) && Growing(s, Intervals(log), h.grown)
    ensures var (t, more) := Invoke(s, input);
            Growing(t, Intervals(log + more), Next(h, s, input, Basics(log)).grown)
  {
    hide Growing, Inv, Held, Intervals, Basics, Consume, L.FoldTwo, Told, Observed, U.Offer;
    if s.pending.aggregate {
      AggregateGrows(s, log, h);
    } else if s.pending.ten {
      FinaliseTenGrows(s, log, h);
    } else if s.pending.two {
      FinaliseTwoGrows(s, log, h);
    } else if s.pending.openTen || s.pending.openTwo {
      OthersGrow(s, log, h);
    } else if input.Some? {
      ConsumeGrows(s, log, h, input.value);
    } else {
      assert log + [] == log;
    }
  }

  lemma {:induction false} EveryHistory(other: u8, inputs: seq<Option<Packet>>)
    ensures var (s, log) := Run(other, inputs); Growing(s, Intervals(log), HistoryOf(other, inputs).grown)
  {
    if inputs != [] {
      var init, input := inputs[..|inputs| - 1], inputs[|inputs| - 1];
      EveryHistory(other, init);
      EveryRun(other, init);
      var (s, log) := Run(other, init);
      NextGrown(s, log, HistoryOf(other, init), input);
      hide Growing, Inv, AllJustified, Invoke, Next, Intervals, Basics, Held;
    }
  }

  // ---- From interval to interval ------------------------------------------------------

  // How many Basic records precede each ten-minute record.
  ghost function Ends(log: seq<Record>): (ends: seq<nat>)
    ensures |ends| == |Intervals(log)|
  {
    if log == [] then []
    else
      var init := log[..|log| - 1];
      if log[|log| - 1].TenMinuteRecord? then Ends(init) + [|Basics(init)|] else Ends(init)
  }

  function From(ends: seq<nat>, k: nat): nat
    requires k <= |ends|
  {
    if k == 0 then 0 else ends[k - 1]
  }

  ghost predicate Slices(log: seq<Record>, k: nat)
    requires k < |Intervals(log)|
  {
    && From(Ends(log), k) <= Ends(log)[k] <= |Basics(log)|
    && Intervals(log)[k].since == Basics(log)[From(Ends(log), k)..Ends(log)[k]]
    && L.SoundInterval(Intervals(log)[k])
  }

  ghost predicate EachSlices(log: seq<Record>) {
    && (forall k :: 0 <= k < |Intervals(log)| ==> Slices(log, k))
    && From(Ends(log), |Ends(log)|) <= |Basics(log)|
    && BasicsSince(log) == Basics(log)[From(Ends(log), |Ends(log)|)..]
  }

  lemma EndsAppend(log: seq<Record>, r: Record)
    ensures Ends(log + [r]) == if r.TenMinuteRecord? then Ends(log) + [|Basics(log)|] else Ends(log)
  {
    assert (log + [r])[..|log|] == log;
    hide Basics, Intervals;
  }

  lemma SlicesKeep(log: seq<Record>, r: Record, k: nat)
    requires k < |Intervals(log)| && Slices(log, k)
    ensures k < |Intervals(log + [r])| && Slices(log + [r], k)
  {
    hide L.SoundInterval, Basics, Intervals, Ends, BasicsSince;
    LogAppend(log, r);
    EndsAppend(log, r);
  }

  lemma SliceLast(log: seq<Record>, r: Record)
    requires EachSlices(log) && r.TenMinuteRecord?
    requires r.interval.since == BasicsSince(log) && L.SoundInterval(r.interval)
    ensures |Intervals(log + [r])| == |Intervals(log)| + 1 && Slices(log + [r], |Intervals(log)|)
  {
    hide L.SoundInterval, Basics, Intervals, Ends, BasicsSince, Slices;
    LogAppend(log, r);
    EndsAppend(log, r);
    OneSlice(log + [r], |Intervals(log)|);
  }

  lemma OneSlice(log: seq<Record>, k: nat)
    requires k < |Intervals(log)| && From(Ends(log), k) <= Ends(log)[k] <= |Basics(log)|
    requires Intervals(log)[k].since == Basics(log)[From(Ends(log), k)..Ends(log)[k]]
    requires L.SoundInterval(Intervals(log)[k])
    ensures Slices(log, k)
  {
  }

  lemma RestExtends(log: seq<Record>, r: Record)
    requires EachSlices(log)
    ensures var (all, ends) := (Basics(log + [r]), Ends(log + [r]));
            From(ends, |ends|) <= |all| && BasicsSince(log + [r]) == all[From(ends, |ends|)..]
  {
    hide Basics, Intervals, Ends, BasicsSince, Slices;
    LogAppend(log, r);
    EndsAppend(log, r);
  }

  lemma SlicesExtend(init: seq<Record>, r: Record)
    requires EachSlices(init)
    requires r.TenMinuteRecord? ==> r.interval.since == BasicsSince(init) && L.SoundInterval(r.interval)
    ensures EachSlices(init + [r])
  {
    hide L.SoundInterval, Basics, Intervals, Ends, BasicsSince, Slices;
    LogAppend(init, r);
    if r.TenMinuteRecord? { SliceLast(init, r); }
    forall k | 0 <= k < |Intervals(init + [r])| ensures Slices(init + [r], k) {
      if k < |Intervals(init)| { SlicesKeep(init, r, k); }
    }
    RestExtends(init, r);
  }

  lemma {:induction false} IntervalsSlice(log: seq<Record>, other: u8)
    requires AllJustified(log, other)
    ensures EachSlices(log)
  {
    if log != [] {
      hide EachSlices, AllJustified, B.Sound, L.SoundInterval, A.Complete, L.SoundTwoHour, Basics, BasicsSince;
      var init := log[..|log| - 1];
      InitJustified(log, other);
      IntervalsSlice(init, other);
      SlicesExtend(init, log[|log| - 1]);
      assert log == init + [log[|log| - 1]];
    }
  }

  // Two successive ten-minute records that may be cascaded and whose counters
  // did not wrap.
  ghost predicate Successive(log: seq<Record>, k: nat)
    requires k + 1 < |Intervals(log)|
  {
    && L.Cascades(Intervals(log)[k]) && L.Cascades(Intervals(log)[k + 1])
    && |Intervals(log)[k].since| <= B16 && |Intervals(log)[k + 1].since| <= B16
    && Samples(Intervals(log)[k].blocks) < B32
  }

  lemma WholeSlice(i: L.Interval)
    requires L.SoundInterval(i) && L.Cascades(i) && |i.since| <= B16
    ensures i.blocks == i.since && i.blocks != [] && L.EachContinues(i.blocks) && !i.blocks[0].result.first
  {
    assert Eligible(i.blocks[0].result);
  }

  // The last block of the first is followed by the first block of the second.
  lemma MeetAt(log: seq<Record>, other: u8, k: nat)
    requires AllJustified(log, other) && k + 1 < |Intervals(log)| && Successive(log, k)
    ensures var (n, i, next) := (Ends(log)[k], Intervals(log)[k], Intervals(log)[k + 1]);
            && 0 < n < |Basics(log)| && i.blocks != [] && next.blocks != []
            && i.blocks[|i.blocks| - 1] == Basics(log)[n - 1] && next.blocks[0] == Basics(log)[n]
            && !Basics(log)[n].result.first && L.EachContinues(i.blocks)
  {
    hide AllJustified, Intervals, Basics, Ends, L.SoundInterval, L.Cascades, L.EachContinues, Samples;
    IntervalsSlice(log, other);
    assert Slices(log, k) && Slices(log, k + 1);
    hide EachSlices;
    WholeSlice(Intervals(log)[k]);
    WholeSlice(Intervals(log)[k + 1]);
  }

  // The second interval abuts the first exactly when it starts where the last
  // block of the first ended.
  lemma AbutsWhereEnded(i: L.Interval, next: L.Interval)
    requires i.blocks != [] && next.blocks != [] && L.EachContinues(i.blocks) && Samples(i.blocks) < B32
    requires next.number == Add32(i.number, 1)
    ensures L.Abuts(i, next) <==>
      && SameConfiguration(i.blocks[0].result, next.blocks[0].result)
      && next.blocks[0].result.firstSample == NextFirst(i.blocks[|i.blocks| - 1].result)
  {
    L.LinkedEnd(i.blocks);
    hide Samples, L.EachContinues, NextFirst, SameConfiguration;
  }

  lemma Numbers(intervals: seq<L.Interval>, grown: seq<seq<L.Interval>>, k: nat)
    requires EachGrows(intervals, grown) && k + 1 < |intervals|
    ensures intervals[k + 1].number == Add32(intervals[k].number, 1)
    ensures EndsAt(intervals, grown, k) && GrowsAt(intervals, grown, k + 1)
  {
    hide L.FoldTwo, L.Cascades;
    assert EndsAt(intervals, grown, k) && EndsAt(intervals, grown, k + 1);
    ModAdd(k + 1, 1, B32);
  }

  // Over every run: the two-hour interval is extended by the next ten-minute
  // interval exactly when it was not complete, the configuration is the same and
  // no mark fell inside the block between them; otherwise it starts again with
  // that interval alone.
  lemma TwoHourGrows(other: u8, inputs: seq<Option<Packet>>, k: nat)
    requires var log := Run(other, inputs).1;
             && k + 1 < |Intervals(log)| && Successive(log, k)
             && 0 < Ends(log)[k] < |Basics(log)| && SeamAt(Basics(log), Ends(log)[k])
    ensures var (log, h) := (Run(other, inputs).1, HistoryOf(other, inputs));
            var (i, next) := (Intervals(log)[k], Intervals(log)[k + 1]);
            var n := Ends(log)[k];
            && |h.grown| == |Intervals(log)| && U.Paired(Basics(log), h.trace.closed)
            && i.blocks != [] && next.blocks != []
            && i.blocks[|i.blocks| - 1] == Basics(log)[n - 1] && next.blocks[0] == Basics(log)[n]
            && h.grown[k + 1] ==
                 if |h.grown[k]| != L.INTERVALS
                    && SameConfiguration(i.blocks[0].result, next.blocks[0].result)
                    && !U.MarkInside(Basics(log)[n - 1].cycles, h.trace.closed[n - 1])
                 then h.grown[k] + [next] else [next]
  {
    hide Run, HistoryOf, Intervals, Basics, Ends, AllJustified, Inv, Held, U.MarkInside, SeamAt, L.Cascades, L.Abuts;
    hide L.EachContinues, SameConfiguration;
    var (s, log) := Run(other, inputs);
    var h := HistoryOf(other, inputs);
    var (i, next) := (Intervals(log)[k], Intervals(log)[k + 1]);
    EveryRun(other, inputs);
    EveryHistory(other, inputs);
    EachLength(Intervals(log), h.grown);
    Numbers(Intervals(log), h.grown, k);
    MeetAt(log, other, k);
    BlocksAbut(other, inputs, Ends(log)[k]);
    AbutsWhereEnded(i, next);
    hide EachGrows, NextFirst, Samples;
  }
}
