/** The 150/180-cycle tier on lists of Basic results: fifteen eligible blocks
    under one configuration, with a UTC shadow that may take over. */
module AggregateTier {
  import opened Words
  import opened IntervalTypes

  const BLOCKS: int := 15

  // The open interval, the interval restarted at a UTC mark beside it, and the
  // closed interval that waits to be finalised.
  datatype Aggregate = Aggregate(
    active: seq<Block>, shadow: seq<Block>, closed: seq<Block>, applySeen: bool, sequence: u32)

  function Initial(): Aggregate { Aggregate([], [], [], false, 0) }

  function Clear(a: Aggregate): Aggregate { a.(active := [], shadow := []) }

  // A UTC correction drops the shadow; the open interval may complete.
  function OnTarget(a: Aggregate): Aggregate { a.(shadow := []) }

  function Observe(a: Aggregate, apply: bool): Aggregate {
    if apply != a.applySeen then Clear(a).(applySeen := apply) else a
  }

  predicate MarkedOverlap(last: Result, r: Result) {
    r.resynchronized && r.firstSample <= last.lastSample < r.lastSample
  }

  predicate Follows(last: Result, r: Result) {
    r.sequence == Add32(last.sequence, 1) && (r.firstSample == NextFirst(last) || MarkedOverlap(last, r))
  }

  predicate Breaks(active: seq<Block>, r: Result) {
    active != [] &&
    (!SameConfiguration(active[0].result, r) || !Follows(active[|active| - 1].result, r))
  }

  function Restart(a: Aggregate, r: Result): Aggregate {
    if Breaks(a.active, r) then Clear(a) else a
  }

  function Join(a: Aggregate, b: Block): Aggregate {
    a.(active := a.active + [b],
       shadow :=
         if b.result.resynchronized && a.active != [] then [b]
         else if a.shadow != [] then a.shadow + [b]
         else [])
  }

  function Close(a: Aggregate): Aggregate {
    if |a.active| != BLOCKS then a else a.(closed := a.active, active := a.shadow, shadow := [])
  }

  function Fold(a: Aggregate, b: Block): Aggregate {
    var current := Observe(a, b.result.apply);
    if !Eligible(b.result) then Clear(current) else Close(Join(Restart(current, b.result), b))
  }

  function Finalise(a: Aggregate): Aggregate { a.(closed := [], sequence := Add32(a.sequence, 1)) }

  // ---- Every reachable state ---------------------------------------------

  ghost predicate EachFollows(blocks: seq<Block>) {
    forall k :: 0 < k < |blocks| ==> Follows(blocks[k - 1].result, blocks[k].result)
  }

  // Consecutive eligible Basic results under one configuration, each
  // continuing the sample axis or overlapping it at one marked UTC restart.
  ghost predicate Clean(blocks: seq<Block>) {
    ConsecutiveBlocks(blocks) && OneConfiguration(blocks) && AllEligible(blocks) && EachFollows(blocks)
  }

  // A live shadow holds the newest blocks of the open interval, at least one
  // and strictly fewer, from the resynchronised block on.
  ghost predicate ShadowOf(shadow: seq<Block>, active: seq<Block>) {
    shadow != [] ==>
      && |shadow| < |active|
      && SuffixOf(shadow, active)
      && shadow[0].result.resynchronized
  }

  ghost predicate Complete(blocks: seq<Block>) { |blocks| == BLOCKS && Clean(blocks) }

  ghost predicate Inv(a: Aggregate) {
    && |a.active| < BLOCKS
    && Clean(a.active)
    && ShadowOf(a.shadow, a.active)
    && (a.closed != [] ==> Complete(a.closed))
  }

  lemma CleanEmpty()
    ensures Clean([])
  {
  }

  lemma CleanExtends(blocks: seq<Block>, b: Block)
    requires Clean(blocks) && Eligible(b.result) && !Breaks(blocks, b.result)
    ensures Clean(blocks + [b])
  {
    BlocksExtend(blocks, b);
    var all := blocks + [b];
    forall k | 0 < k < |all| ensures Follows(all[k - 1].result, all[k].result) {
      if k < |blocks| { assert Follows(blocks[k - 1].result, blocks[k].result); }
    }
  }

  lemma CleanSuffix(part: seq<Block>, all: seq<Block>)
    requires Clean(all) && SuffixOf(part, all)
    ensures Clean(part)
  {
    var n := |all| - |part|;
    assert forall k :: 0 <= k < |part| ==> part[k] == all[n + k];
    forall k | 0 <= k < |part|
      ensures part[k].result.sequence == (part[0].result.sequence + k) % B32
      ensures SameConfiguration(part[0].result, part[k].result)
    {
      assert part[k] == all[n + k] && part[0] == all[n];
      OffsetShift(all[0].result.sequence, n, k);
      assert SameConfiguration(all[0].result, all[n].result);
    }
    forall k | 0 < k < |part| ensures Follows(part[k - 1].result, part[k].result) {
      assert part[k] == all[n + k] && part[k - 1] == all[n + k - 1];
    }
  }

  lemma ShadowExtends(a: Aggregate, b: Block)
    requires ShadowOf(a.shadow, a.active)
    ensures ShadowOf(Join(a, b).shadow, a.active + [b])
  {
    if a.active != [] { SuffixAppend(a.shadow, a.active, b); }
  }

  lemma ClosePreserves(a: Aggregate)
    requires Clean(a.active) && ShadowOf(a.shadow, a.active) && |a.active| <= BLOCKS && a.closed == []
    ensures Inv(Close(a))
  {
    hide Clean;
    CleanEmpty();
    if a.shadow != [] { CleanSuffix(a.shadow, a.active); }
  }

  lemma FoldPreserves(a: Aggregate, b: Block)
    requires Inv(a) && a.closed == []
    ensures Inv(Fold(a, b))
  {
    hide Clean;
    CleanEmpty();
    var current := Observe(a, b.result.apply);
    if Eligible(b.result) {
      var base := Restart(current, b.result);
      CleanExtends(base.active, b);
      ShadowExtends(base, b);
      ClosePreserves(Join(base, b));
    }
  }

  lemma FoldIsBounded(a: Aggregate, b: Block)
    requires Inv(a) && a.closed == []
    ensures var base := Restart(Observe(a, b.result.apply), b.result);
            |base.active| < BLOCKS && |base.shadow| < BLOCKS && base.closed == []
    ensures Join(Restart(Observe(a, b.result.apply), b.result), b).active != []
    ensures Join(Restart(Observe(a, b.result.apply), b.result), b).closed == []
    ensures Observe(a, b.result.apply).closed == []
  {
  }

  lemma OthersPreserve(a: Aggregate)
    requires Inv(a)
    ensures Inv(OnTarget(a)) && Inv(Finalise(a))
  {
  }

  // What a folded result leaves in the slots.
  lemma FoldCases(a: Aggregate, b: Block)
    requires Inv(a) && a.closed == []
    ensures var base := Restart(Observe(a, b.result.apply), b.result);
            var joined, folded := Join(base, b), Fold(a, b);
            && (base.active == [] || base.active == a.active)
            && ShadowOf(joined.shadow, joined.active)
            && (folded.active == [] || folded.active == joined.active || folded.active == joined.shadow)
            && (folded.closed == [] || folded.closed == joined.active)
  {
    hide Clean, Breaks, Eligible;
    ShadowExtends(Restart(Observe(a, b.result.apply), b.result), b);
  }
}
