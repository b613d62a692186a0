/** A run of packets in which the signed lanes depend on how the cycles are
    grouped into blocks. */
module SignedRuns {
  import opened Words
  import opened IntervalTypes
  import T = IntervalTree
  import G = SteadyRuns
  import L = LongTiers
  import opened SignedLanes

  // The greatest value on the last cycle of a block, then 1 and -1 in the next.
  function Along(k: nat): Signed {
    if k == 29 then One(HIGH) else if k == 30 then One(1) else if k == 31 then One(-1) else One(0)
  }

  function Spike(c: Cycle): Signed { Along(c.sequence) }

  function Zeros(n: nat): (s: seq<Signed>)
    ensures |s| == n
  {
    seq(n, _ => One(0))
  }

  lemma {:induction false} FoldZeros(n: nat)
    requires n > 0
    ensures SignedFold(Zeros(n)) == One(0)
  {
    if n > 1 {
      FoldZeros(n - 1);
      assert Zeros(n) == Zeros(n - 1) + [One(0)];
      SignedAppend(Zeros(n - 1), One(0));
    }
  }

  lemma {:induction false} ZeroTail(s: seq<Signed>, n: nat)
    requires s != []
    ensures SignedFold(s + Zeros(n)) == SignedFold(s)
  {
    if n == 0 {
      assert s + Zeros(0) == s;
    } else {
      ZeroTail(s, n - 1);
      assert s + Zeros(n) == s + Zeros(n - 1) + [One(0)];
      SignedAppend(s + Zeros(n - 1), One(0));
    }
  }

  // The lane along cycles from, ..., to - 1.
  ghost function Values(from: nat, to: nat): (s: seq<Signed>)
    requires from <= to
    ensures |s| == to - from
  {
    seq(to - from, k requires 0 <= k < to - from => Along(from + k))
  }

  lemma LaneIs(g: G.Grid, from: nat, to: nat)
    requires G.Fits(g) && from <= to <= G.LIMIT
    ensures Lane(Spike, G.Cycles(g, from, to)) == Values(from, to)
  {
    hide Along, G.CycleAt;
    var cycles := G.Cycles(g, from, to);
    forall k | 0 <= k < to - from ensures Lane(Spike, cycles)[k] == Values(from, to)[k] {
      assert cycles[k] == G.CycleAt(g, from + k);
      assert Lane(Spike, cycles)[k] == Spike(cycles[k]) == Along(from + k);
    }
  }

  lemma ValuesSplit(from: nat, middle: nat, to: nat)
    requires from <= middle <= to
    ensures Values(from, to) == Values(from, middle) + Values(middle, to)
  {
    hide Along;
  }

  lemma ValuesZero(from: nat, to: nat)
    requires from <= to && (to <= 29 || from >= 32)
    ensures Values(from, to) == Zeros(to - from)
  {
    forall k | 0 <= k < to - from ensures Values(from, to)[k] == Zeros(to - from)[k] {
      assert Along(from + k) == One(0);
    }
  }

  // The three cycles in between.
  lemma ValuesSpike()
    ensures Values(29, 30) == [One(HIGH)] && Values(30, 31) == [One(1)] && Values(31, 32) == [One(-1)]
    ensures Add(One(0), One(HIGH)) == One(HIGH) && Add(One(1), One(-1)) == One(0)
    ensures Add(Add(One(HIGH), One(1)), One(-1)) == Signed(HIGH - 1, true)
  {
  }

  lemma FirstBlockFold()
    ensures SignedFold(Values(20, 30)) == One(HIGH)
  {
    hide SignedFold, Values, Zeros, Along, Add, One;
    ValuesSplit(20, 29, 30);
    ValuesZero(20, 29);
    ValuesSpike();
    FoldZeros(9);
    SignedAppend(Zeros(9), One(HIGH));
  }

  lemma SecondBlockFold()
    ensures SignedFold(Values(30, 40)) == One(0)
  {
    hide SignedFold, Values, Zeros, Along, Add, One;
    ValuesSplit(30, 32, 40);
    ValuesSplit(30, 31, 32);
    ValuesZero(32, 40);
    ValuesSpike();
    assert [One(1)] + [One(-1)] == [One(1), One(-1)];
    TwoFold(One(1), One(-1));
    ZeroTail([One(1), One(-1)], 8);
  }

  // Cycle by cycle the lane saturates at the second block's first cycle.
  lemma FlatFold(to: nat)
    requires 40 <= to
    ensures SignedFold(Values(20, to)) == Signed(HIGH - 1, true)
  {
    hide SignedFold, Values, Zeros, Along, Add, One;
    ValuesSplit(20, 32, to);
    ValuesSplit(20, 31, 32);
    ValuesSplit(20, 30, 31);
    ValuesZero(32, to);
    ValuesSpike();
    FirstBlockFold();
    SignedAppend(Values(20, 30), One(1));
    SignedAppend(Values(20, 30) + [One(1)], One(-1));
    ZeroTail(Values(20, 32), to - 32);
  }

  // Block k of an interval that starts at cycle 20.
  lemma BlockFold(k: nat)
    ensures SignedFold(Values(20 + 10 * k, 30 + 10 * k)) == if k == 0 then One(HIGH) else One(0)
  {
    hide SignedFold, Values, Zeros;
    if k == 0 {
      FirstBlockFold();
    } else if k == 1 {
      SecondBlockFold();
    } else {
      ValuesZero(20 + 10 * k, 30 + 10 * k);
      FoldZeros(10);
    }
  }

  lemma BlockIs(i: L.Interval, g: G.Grid, n: nat, k: nat)
    requires G.Fits(g) && k < n && 20 + 10 * n <= G.LIMIT && |i.blocks| == n && G.SteadyFrom(g, i.blocks, 20)
    ensures i.blocks[k].cycles != []
    ensures SignedFold(Lane(Spike, i.blocks[k].cycles)) == if k == 0 then One(HIGH) else One(0)
  {
    hide SignedFold, Lane, Values, G.Cycles, Spike, Along;
    assert G.Steady(g, i.blocks[k], 20 + 10 * k, false);
    LaneIs(g, 20 + 10 * k, 30 + 10 * k);
    BlockFold(k);
  }

  lemma CascadedFold(i: L.Interval, g: G.Grid, n: nat)
    requires G.Fits(g) && 2 <= n && 20 + 10 * n <= G.LIMIT && |i.blocks| == n && G.SteadyFrom(g, i.blocks, 20)
    ensures Filled(i.blocks) && IntervalLane(Spike, i.blocks) == Signed(HIGH, false)
  {
    hide G.SteadyFrom, Lane, Spike, SignedFold;
    forall k | 0 <= k < n
      ensures i.blocks[k].cycles != []
      ensures SignedFold(Lane(Spike, i.blocks[k].cycles)) == if k == 0 then One(HIGH) else One(0)
    {
      BlockIs(i, g, n, k);
    }
    assert Folds(BlockLanes(Spike, i.blocks)) == [One(HIGH)] + Zeros(n - 1);
    ZeroTail([One(HIGH)], n - 1);
    LoneFold(One(HIGH));
  }

  lemma LoneFold(x: Signed)
    ensures SignedFold([x]) == x
  {
  }

  lemma {:induction false} SteadyCycles(blocks: seq<Block>, g: G.Grid)
    requires G.Fits(g) && 20 + 10 * |blocks| <= G.LIMIT && G.SteadyFrom(g, blocks, 20)
    ensures AllCycles(blocks) == G.Cycles(g, 20, 20 + 10 * |blocks|)
  {
    if blocks == [] {
      assert G.Cycles(g, 20, 20) == [];
    } else {
      var n := |blocks| - 1;
      assert G.Steady(g, blocks[n], 20 + 10 * n, false);
      InitSteady(blocks, g);
      SteadyCycles(blocks[..n], g);
      CyclesJoin(g, 20, 20 + 10 * n, 30 + 10 * n);
    }
  }

  lemma InitSteady(blocks: seq<Block>, g: G.Grid)
    requires G.Fits(g) && 20 + 10 * |blocks| <= G.LIMIT && G.SteadyFrom(g, blocks, 20) && blocks != []
    ensures G.SteadyFrom(g, blocks[..|blocks| - 1], 20)
  {
    hide G.Steady;
    var init := blocks[..|blocks| - 1];
    forall k | 0 <= k < |init| ensures G.Steady(g, init[k], 20 + 10 * k, false) {
      assert G.Steady(g, blocks[k], 20 + 10 * k, false);
    }
  }

  lemma CyclesJoin(g: G.Grid, a: nat, b: nat, c: nat)
    requires G.Fits(g) && a <= b <= c <= G.LIMIT
    ensures G.Cycles(g, a, b) + G.Cycles(g, b, c) == G.Cycles(g, a, c)
  {
    hide G.CycleAt;
  }

  // ---- In a run -------------------------------------------------------------------

  // At exactly 50 Hz and 32 kHz: a published ten-minute record whose lane, by
  // blocks, is exact and unflagged, while over its cycles one by one it saturates.
  lemma GroupingMattersInRun() returns (k: nat, i: L.Interval)
    ensures k <= G.LIMIT && i in T.Intervals(G.RunTo(G.Grid(640, 32_000), k).1)
    ensures Filled(i.blocks) && AllCycles(i.blocks) != []
    ensures IntervalLane(Spike, i.blocks) == Signed(HIGH, false)
    ensures SignedFold(Lane(Spike, AllCycles(i.blocks))) == Signed(HIGH - 1, true)
  {
    hide G.RunTo, G.SteadyInterval, G.Recorded, IntervalLane, Lane, Spike, AllCycles;
    var g := G.Grid(640, 32_000);
    k := 60_010;
    var next;
    i, next := G.TwoIntervals(g, 2998, 30_000, 2999, 60_000, 30_010);
    InIntervals(G.RunTo(g, k).1, i, next);
    G.RecordedSound(G.RunTo(g, k).1, i, next);
    G.WholeSteady(i, g, 20, 2999);
    CascadedFold(i, g, 2999);
    SteadyCycles(i.blocks, g);
    LaneIs(g, 20, 30_010);
    FlatFold(30_010);
  }

  lemma InIntervals(log: seq<T.Record>, i: L.Interval, next: L.Interval)
    requires G.Recorded(log, i, next)
    ensures i in T.Intervals(log)
  {
    hide L.SoundInterval, L.Cascades;
  }
}
