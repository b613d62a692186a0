/** The signed lanes of the interval tiers, power and phasor sums held to 128
    bits: unlike the other statistics these do not merge in any grouping, and
    the overflow flag tells when they do. */
module SignedLanes {
  import opened Words
  import opened IntervalTypes
  import L = LongTiers
  import T = IntervalTree

  const HIGH: int := B128 / 2 - 1
  const LOW: int := -(B128 / 2)

  type i128 = x: int | LOW <= x <= HIGH

  // One accumulator with its flag.
  datatype Signed = Signed(value: i128, overflow: bool)

  function Held(x: int): i128 { if x > HIGH then HIGH else if x < LOW then LOW else x }

  function Add(a: Signed, b: Signed): Signed {
    Signed(Held(a.value + b.value), a.overflow || b.overflow || !(LOW <= a.value + b.value <= HIGH))
  }

  // The accumulator starts from zero, so the first contribution is kept as it is.
  function SignedFold(s: seq<Signed>): Signed
    requires s != []
  {
    if |s| == 1 then s[0] else Add(SignedFold(s[..|s| - 1]), s[|s| - 1])
  }

  ghost function Total(s: seq<Signed>): int {
    if s == [] then 0 else Total(s[..|s| - 1]) + s[|s| - 1].value
  }

  // The exact sum of the first n contributions fits, and none of them is flagged.
  ghost predicate ClearAt(s: seq<Signed>, n: nat)
    requires 0 < n <= |s|
  {
    !s[n - 1].overflow && LOW <= Total(s[..n]) <= HIGH
  }

  ghost predicate Clear(s: seq<Signed>) { forall n :: 0 < n <= |s| ==> ClearAt(s, n) }

  // The flag is clear exactly when every exact prefix sum fits, and then the
  // accumulator is the exact sum.
  lemma {:induction false} FoldIsExact(s: seq<Signed>)
    requires s != []
    ensures !SignedFold(s).overflow <==> Clear(s)
    ensures Clear(s) ==> SignedFold(s).value == Total(s)
  {
    var n := |s| - 1;
    assert s[..n + 1] == s;
    if n == 0 {
      assert Total(s[..0]) == 0;
      assert Total(s) == s[0].value;
      assert ClearAt(s, 1) <==> !s[0].overflow;
    } else {
      var init := s[..n];
      FoldIsExact(init);
      ClearPrefix(s);
      assert Clear(s) ==> ClearAt(s, n + 1);
      assert init[..n] == init;
      if Clear(init) { assert ClearAt(init, n); }
    }
  }

  lemma ClearPrefix(s: seq<Signed>)
    requires s != []
    ensures Clear(s) <==> Clear(s[..|s| - 1]) && ClearAt(s, |s|)
  {
    var init := s[..|s| - 1];
    if Clear(s) {
      forall n | 0 < n <= |init| ensures ClearAt(init, n) {
        assert ClearAt(s, n) && init[..n] == s[..n];
      }
    }
    if Clear(init) && ClearAt(s, |s|) {
      forall n | 0 < n <= |s| ensures ClearAt(s, n) {
        if n < |s| { assert ClearAt(init, n) && init[..n] == s[..n]; }
      }
    }
  }

  // ---- Folding folds ---------------------------------------------------------

  ghost predicate Whole(parts: seq<seq<Signed>>) { forall k :: 0 <= k < |parts| ==> parts[k] != [] }

  ghost function Folds(parts: seq<seq<Signed>>): (s: seq<Signed>)
    requires Whole(parts)
    ensures |s| == |parts|
  {
    seq(|parts|, k requires 0 <= k < |parts| => SignedFold(parts[k]))
  }

  ghost function Concat(parts: seq<seq<Signed>>): seq<Signed> {
    if parts == [] then [] else Concat(parts[..|parts| - 1]) + parts[|parts| - 1]
  }

  lemma {:induction false} TotalConcat(s: seq<Signed>, t: seq<Signed>)
    ensures Total(s + t) == Total(s) + Total(t)
  {
    if t == [] {
      assert s + t == s;
    } else {
      TotalConcat(s, t[..|t| - 1]);
      assert (s + t)[..|s + t| - 1] == s + t[..|t| - 1];
    }
  }

  // Every prefix sum within the part fits, and so does that of the whole parts.
  ghost predicate ClearPartAt(parts: seq<seq<Signed>>, n: nat)
    requires 0 < n <= |parts|
  {
    Clear(parts[n - 1]) && LOW <= Total(Concat(parts[..n])) <= HIGH
  }

  ghost predicate ClearParts(parts: seq<seq<Signed>>) { forall n :: 0 < n <= |parts| ==> ClearPartAt(parts, n) }

  lemma ClearPartsPrefix(parts: seq<seq<Signed>>)
    requires parts != []
    ensures ClearParts(parts) <==>
      && ClearParts(parts[..|parts| - 1])
      && Clear(parts[|parts| - 1]) && LOW <= Total(Concat(parts)) <= HIGH
  {
    hide Clear, Total, Concat;
    var init := parts[..|parts| - 1];
    assert parts[..|parts|] == parts;
    assert ClearPartAt(parts, |parts|) <==> Clear(parts[|parts| - 1]) && LOW <= Total(Concat(parts)) <= HIGH;
    if ClearParts(parts) {
      forall n | 0 < n <= |init| ensures ClearPartAt(init, n) {
        assert ClearPartAt(parts, n) && init[..n] == parts[..n];
      }
    }
    if ClearParts(init) && ClearPartAt(parts, |parts|) {
      forall n | 0 < n <= |parts| ensures ClearPartAt(parts, n) {
        if n < |parts| { assert ClearPartAt(init, n) && init[..n] == parts[..n]; }
      }
    }
  }

  lemma ConcatNonEmpty(parts: seq<seq<Signed>>)
    requires Whole(parts) && parts != []
    ensures Concat(parts) != []
  {
    assert parts[|parts| - 1] != [];
  }

  lemma SignedAppend(s: seq<Signed>, x: Signed)
    requires s != []
    ensures SignedFold(s + [x]) == Add(SignedFold(s), x)
  {
    assert (s + [x])[..|s|] == s;
  }

  // The cascaded flag is clear exactly when the sums inside each part and over
  // whole parts fit, and then the cascaded sum is the exact sum of everything.
  lemma {:induction false} CascadeIsExact(parts: seq<seq<Signed>>)
    requires parts != [] && Whole(parts)
    ensures !SignedFold(Folds(parts)).overflow <==> ClearParts(parts)
    ensures ClearParts(parts) ==> SignedFold(Folds(parts)).value == Total(Concat(parts))
  {
    hide Clear, Total;
    var n := |parts| - 1;
    var init, last := parts[..n], parts[n];
    FoldIsExact(last);
    ClearPartsPrefix(parts);
    if n == 0 {
      LonePart(parts);
    } else {
      CascadeIsExact(init);
      assert Folds(parts) == Folds(init) + [SignedFold(last)];
      SignedAppend(Folds(init), SignedFold(last));
      TotalConcat(Concat(init), last);
      assert Concat(parts) == Concat(init) + last;
    }
    hide ClearParts, Folds, Concat;
  }

  lemma LonePart(parts: seq<seq<Signed>>)
    requires |parts| == 1 && Whole(parts)
    ensures SignedFold(Folds(parts)) == SignedFold(parts[0]) && Concat(parts) == parts[0]
    ensures ClearParts(parts) <==> Clear(parts[0])
  {
    assert Concat(parts) == [] + parts[0] == parts[0];
    assert parts[..1] == parts;
    assert ClearParts(parts) <==> ClearPartAt(parts, 1);
    FoldIsExact(parts[0]);
    assert Clear(parts[0]) ==> ClearAt(parts[0], |parts[0]|) && parts[0][..|parts[0]|] == parts[0];
    hide Total;
  }

  // Exactly when a flag-free cascaded fold is the flat fold: the prefix sums fit in
  // both groupings.
  lemma CascadeIsFlat(parts: seq<seq<Signed>>)
    requires parts != [] && Whole(parts)
    ensures Concat(parts) != []
    ensures !SignedFold(Folds(parts)).overflow && SignedFold(Folds(parts)) == SignedFold(Concat(parts))
        <==> ClearParts(parts) && Clear(Concat(parts))
  {
    ConcatNonEmpty(parts);
    CascadeIsExact(parts);
    FoldIsExact(Concat(parts));
    hide Clear, ClearParts, Folds;
  }

  function One(x: i128): Signed { Signed(x, false) }

  // One clear flag is not enough, in either grouping: the largest value and then
  // 1 - 1 saturates only the flat fold, and -5 and then the largest value + 3
  // only the cascaded one.
  lemma GroupingMatters()
    ensures var a, b := [[One(HIGH)], [One(1), One(-1)]], [[One(-5)], [One(HIGH), One(3)]];
            && Whole(a) && Whole(b)
            && !SignedFold(Folds(a)).overflow && SignedFold(Folds(a)).value == HIGH
            && SignedFold([One(HIGH), One(1), One(-1)]) == Signed(HIGH - 1, true)
            && SignedFold(Folds(b)) == Signed(HIGH - 5, true)
            && SignedFold([One(-5), One(HIGH), One(3)]) == Signed(HIGH - 2, false)
  {
    var a, b := [[One(HIGH)], [One(1), One(-1)]], [[One(-5)], [One(HIGH), One(3)]];
    TwoFold(One(1), One(-1));
    TwoFold(One(HIGH), One(3));
    TwoFold(One(HIGH), One(1));
    TwoFold(One(-5), One(HIGH));
    assert [One(HIGH), One(1), One(-1)] == [One(HIGH), One(1)] + [One(-1)];
    assert [One(-5), One(HIGH), One(3)] == [One(-5), One(HIGH)] + [One(3)];
    SignedAppend([One(HIGH), One(1)], One(-1));
    SignedAppend([One(-5), One(HIGH)], One(3));
    assert Folds(a) == [One(HIGH), Add(One(1), One(-1))];
    assert Folds(b) == [One(-5), Add(One(HIGH), One(3))];
    TwoFold(One(HIGH), Add(One(1), One(-1)));
    TwoFold(One(-5), Add(One(HIGH), One(3)));
  }

  lemma TwoFold(x: Signed, y: Signed)
    ensures SignedFold([x, y]) == Add(x, y)
  {
    assert [x, y] == [x] + [y];
    SignedAppend([x], y);
  }

  // ---- The lanes of the tiers ----------------------------------------------------

  ghost function Lane(lane: Cycle -> Signed, cycles: seq<Cycle>): (s: seq<Signed>)
    ensures |s| == |cycles|
  {
    seq(|cycles|, k requires 0 <= k < |cycles| => lane(cycles[k]))
  }

  ghost predicate Filled(blocks: seq<Block>) {
    blocks != [] && forall k :: 0 <= k < |blocks| ==> blocks[k].cycles != []
  }

  ghost function BlockLanes(lane: Cycle -> Signed, blocks: seq<Block>): (s: seq<seq<Signed>>)
    requires Filled(blocks)
    ensures |s| == |blocks| && Whole(s)
  {
    seq(|blocks|, k requires 0 <= k < |blocks| => Lane(lane, blocks[k].cycles))
  }

  // What an interval of blocks accumulates: the blocks' own sums.
  ghost function IntervalLane(lane: Cycle -> Signed, blocks: seq<Block>): Signed
    requires Filled(blocks)
  {
    SignedFold(Folds(BlockLanes(lane, blocks)))
  }

  ghost predicate FilledParts(parts: seq<L.Interval>) {
    parts != [] && forall k :: 0 <= k < |parts| ==> Filled(parts[k].blocks)
  }

  ghost function IntervalLanes(lane: Cycle -> Signed, parts: seq<L.Interval>): (s: seq<Signed>)
    requires FilledParts(parts)
    ensures |s| == |parts|
  {
    seq(|parts|, k requires 0 <= k < |parts| => IntervalLane(lane, parts[k].blocks))
  }

  // What a two-hour interval accumulates: its intervals' sums.
  ghost function TwoHourLane(lane: Cycle -> Signed, parts: seq<L.Interval>): Signed
    requires FilledParts(parts)
  {
    SignedFold(IntervalLanes(lane, parts))
  }

  lemma LaneConcat(lane: Cycle -> Signed, a: seq<Cycle>, b: seq<Cycle>)
    ensures Lane(lane, a + b) == Lane(lane, a) + Lane(lane, b)
  {
  }

  lemma {:induction false} BlocksConcat(lane: Cycle -> Signed, blocks: seq<Block>)
    requires Filled(blocks)
    ensures Concat(BlockLanes(lane, blocks)) == Lane(lane, AllCycles(blocks))
  {
    var n := |blocks| - 1;
    var lanes := BlockLanes(lane, blocks);
    if n == 0 {
      assert Concat(lanes) == [] + lanes[0] == lanes[0];
      assert AllCycles(blocks) == [] + blocks[0].cycles == blocks[0].cycles;
    } else {
      BlocksConcat(lane, blocks[..n]);
      assert lanes[..n] == BlockLanes(lane, blocks[..n]);
      LaneConcat(lane, AllCycles(blocks[..n]), blocks[n].cycles);
    }
  }

  // An interval's signed sum is exact over all its cycles while its flag is
  // clear.
  lemma IntervalIsExact(lane: Cycle -> Signed, blocks: seq<Block>)
    requires Filled(blocks)
    ensures !IntervalLane(lane, blocks).overflow <==> ClearParts(BlockLanes(lane, blocks))
    ensures !IntervalLane(lane, blocks).overflow
        ==> IntervalLane(lane, blocks).value == Total(Lane(lane, AllCycles(blocks)))
  {
    CascadeIsExact(BlockLanes(lane, blocks));
    BlocksConcat(lane, blocks);
    hide Folds, ClearParts, Total, BlockLanes, Lane;
  }

  lemma AllCyclesAppend(blocks: seq<Block>, b: Block)
    ensures AllCycles(blocks + [b]) == AllCycles(blocks) + b.cycles
  {
    assert (blocks + [b])[..|blocks|] == blocks;
  }

  lemma {:induction false} AllCyclesConcat(a: seq<Block>, b: seq<Block>)
    ensures AllCycles(a + b) == AllCycles(a) + AllCycles(b)
  {
    if b == [] {
      assert a + b == a;
    } else {
      var init, last := b[..|b| - 1], b[|b| - 1];
      hide AllCycles;
      AllCyclesConcat(a, init);
      AllCyclesAppend(init, last);
      AllCyclesAppend(a + init, last);
      assert b == init + [last] && a + b == (a + init) + [last];
    }
  }

  lemma {:induction false} TwoHourIsExact(lane: Cycle -> Signed, parts: seq<L.Interval>)
    requires FilledParts(parts)
    ensures !TwoHourLane(lane, parts).overflow
        ==> TwoHourLane(lane, parts).value == Total(Lane(lane, AllCycles(L.AllBlocks(parts))))
  {
    hide IntervalLane, Total, Lane;
    var n := |parts| - 1;
    var init, last := parts[..n], parts[n];
    IntervalIsExact(lane, last.blocks);
    if n == 0 {
      assert L.AllBlocks(parts) == [] + last.blocks == last.blocks;
    } else {
      TwoHourIsExact(lane, init);
      TwoHourStep(lane, parts);
      AllCyclesConcat(L.AllBlocks(init), last.blocks);
      LaneConcat(lane, AllCycles(L.AllBlocks(init)), AllCycles(last.blocks));
      TotalConcat(Lane(lane, AllCycles(L.AllBlocks(init))), Lane(lane, AllCycles(last.blocks)));
    }
    hide TwoHourLane, AllCycles;
  }

  lemma TwoHourStep(lane: Cycle -> Signed, parts: seq<L.Interval>)
    requires FilledParts(parts) && |parts| > 1
    ensures TwoHourLane(lane, parts)
         == Add(TwoHourLane(lane, parts[..|parts| - 1]), IntervalLane(lane, parts[|parts| - 1].blocks))
  {
    hide IntervalLane;
    var init := parts[..|parts| - 1];
    var last := IntervalLane(lane, parts[|parts| - 1].blocks);
    assert IntervalLanes(lane, parts) == IntervalLanes(lane, init) + [last];
    SignedAppend(IntervalLanes(lane, init), last);
  }

  lemma FilledCycles(parts: seq<L.Interval>)
    requires FilledParts(parts)
    ensures AllCycles(L.AllBlocks(parts)) != []
  {
    var n := |parts| - 1;
    var blocks := parts[n].blocks;
    AllCyclesConcat(L.AllBlocks(parts[..n]), blocks);
    assert blocks[|blocks| - 1].cycles != [];
  }

  // Over the three cascades: the two-hour flag is clear exactly when the sums
  // of whole intervals fit and no interval is flagged; and flag-free the lane is
  // the flat fold over every cycle exactly when the flat prefix sums fit as well.
  lemma TwoHourIsFlat(lane: Cycle -> Signed, parts: seq<L.Interval>)
    requires FilledParts(parts)
    ensures AllCycles(L.AllBlocks(parts)) != []
    ensures !TwoHourLane(lane, parts).overflow <==> Clear(IntervalLanes(lane, parts))
    ensures var all := Lane(lane, AllCycles(L.AllBlocks(parts)));
            (!TwoHourLane(lane, parts).overflow && TwoHourLane(lane, parts) == SignedFold(all))
            <==> Clear(IntervalLanes(lane, parts)) && Clear(all)
  {
    FilledCycles(parts);
    TwoHourIsExact(lane, parts);
    FoldIsExact(IntervalLanes(lane, parts));
    FoldIsExact(Lane(lane, AllCycles(L.AllBlocks(parts))));
    hide Clear, Total, Lane, IntervalLanes, AllCycles;
  }

  // The same for the blocks of one interval.
  lemma IntervalIsFlat(lane: Cycle -> Signed, blocks: seq<Block>)
    requires Filled(blocks)
    ensures AllCycles(blocks) != []
    ensures !IntervalLane(lane, blocks).overflow <==> ClearParts(BlockLanes(lane, blocks))
    ensures var all := Lane(lane, AllCycles(blocks));
            (!IntervalLane(lane, blocks).overflow && IntervalLane(lane, blocks) == SignedFold(all))
            <==> ClearParts(BlockLanes(lane, blocks)) && Clear(all)
  {
    CascadeIsExact(BlockLanes(lane, blocks));
    CascadeIsFlat(BlockLanes(lane, blocks));
    BlocksConcat(lane, blocks);
    hide Folds, ClearParts, Clear, Total, BlockLanes, Lane;
  }

  // ---- Published records ----------------------------------------------------------

  predicate Publishes(r: T.Record, blocks: seq<Block>) {
    (r.AggregateRecord? && r.blocks == blocks) || (r.TenMinuteRecord? && r.interval.blocks == blocks)
  }

  // Every published 150/180-cycle or ten-minute record.
  lemma PublishedBlocks(log: seq<T.Record>, k: nat, other: u8, lane: Cycle -> Signed, blocks: seq<Block>)
    requires T.AllJustified(log, other) && k < |log| && Publishes(log[k], blocks)
    ensures Filled(blocks) && AllCycles(blocks) != []
    ensures !IntervalLane(lane, blocks).overflow <==> ClearParts(BlockLanes(lane, blocks))
    ensures var all := Lane(lane, AllCycles(blocks));
            (!IntervalLane(lane, blocks).overflow && IntervalLane(lane, blocks) == SignedFold(all))
            <==> ClearParts(BlockLanes(lane, blocks)) && Clear(all)
  {
    hide ClearParts, Clear, BlockLanes, Lane, IntervalLane;
    PublishedFilled(log, k, other, blocks);
    IntervalIsFlat(lane, blocks);
  }

  lemma PublishedFilled(log: seq<T.Record>, k: nat, other: u8, blocks: seq<Block>)
    requires T.AllJustified(log, other) && k < |log| && Publishes(log[k], blocks)
    ensures Filled(blocks)
  {
    T.PrefixJustified(log, k, other);
    T.BasicsFold(log[..k], other);
    if log[k].TenMinuteRecord? {
      T.SinceIsSuffix(log[..k]);
      T.SuffixFolds(T.BasicsSince(log[..k]), T.Basics(log[..k]));
      T.SuffixFolds(blocks, T.BasicsSince(log[..k]));
    } else {
      T.SuffixFolds(blocks, T.Basics(log[..k]));
    }
    FoldedIsFilled(blocks);
  }

  // Every published two-hour record.
  lemma PublishedTwoHour(log: seq<T.Record>, k: nat, other: u8, lane: Cycle -> Signed)
    requires T.AllJustified(log, other) && k < |log| && log[k].TwoHourRecord?
    ensures FilledParts(log[k].parts) && AllCycles(L.AllBlocks(log[k].parts)) != []
    ensures !TwoHourLane(lane, log[k].parts).overflow <==> Clear(IntervalLanes(lane, log[k].parts))
    ensures var (sum, all) := (TwoHourLane(lane, log[k].parts), Lane(lane, AllCycles(L.AllBlocks(log[k].parts))));
            !sum.overflow && sum == SignedFold(all) <==> Clear(IntervalLanes(lane, log[k].parts)) && Clear(all)
  {
    var parts, all := log[k].parts, T.Intervals(log[..k]);
    T.PrefixJustified(log, k, other);
    T.IntervalsFoldCycles(log[..k], other);
    L.SoundNonEmpty(parts);
    forall j | 0 <= j < |parts| ensures Filled(parts[j].blocks) {
      assert parts[j] == all[|all| - |parts| + j];
      assert T.AllFold(parts[j].blocks);
      FoldedIsFilled(parts[j].blocks);
    }
    hide T.AllFold, L.SoundTwoHour, Filled, TwoHourLane, Lane, AllCycles, IntervalLanes, Clear;
    TwoHourIsFlat(lane, parts);
  }

  lemma FoldedIsFilled(blocks: seq<Block>)
    requires T.AllFold(blocks) && blocks != []
    ensures Filled(blocks)
  {
    forall k | 0 <= k < |blocks| ensures blocks[k].cycles != [] { assert FoldsItsCycles(blocks[k]); }
  }
}
