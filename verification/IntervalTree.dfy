/** The interval tree over whole runs: cycles to blocks, blocks to 150/180-cycle
    and ten-minute intervals, ten-minute to two-hour intervals, with the deferred
    finalising passes. */
module IntervalTree {
  import opened Words
  import opened IntervalTypes
  import B = BasicTier
  import A = AggregateTier
  import L = LongTiers

  // The deferred passes still to run.
  datatype Pending = Pending(aggregate: bool, ten: bool, two: bool, openTen: bool, openTwo: bool)

  const NONE := Pending(false, false, false, false, false)

  datatype State = State(
    basic: B.Basic, aggregate: A.Aggregate, ten: L.TenMinute, two: L.TwoHour, pending: Pending)

  // A published record with what it folds. The open records are previews.
  datatype Record =
    | BasicRecord(block: Block)
    | AggregateRecord(number: u32, blocks: seq<Block>)
    | TenMinuteRecord(interval: L.Interval)
    | TwoHourRecord(number: u32, parts: seq<L.Interval>)
    | OpenTenMinute(open: seq<Block>)
    | OpenTwoHour(openParts: seq<L.Interval>)

  function Initial(other: u8): State {
    State(B.Initial(other), A.Initial(), L.InitialTen(), L.InitialTwo(), NONE)
  }

  // ---- One invocation ------------------------------------------------------

  function ObserveTarget(s: State, c: Context): State {
    if c.targetUpdate == s.ten.updateSeen then s
    else
      s.(basic := B.OnTarget(s.basic, c), aggregate := A.OnTarget(s.aggregate),
         ten := L.OnTarget(s.ten, c), two := L.Drop(s.two))
  }

  function ObserveApply(s: State, c: Context): State {
    if c.apply == s.basic.applySeen then s
    else s.(basic := B.OnApply(s.basic, c), two := L.Drop(s.two))
  }

  // A closed block feeds the ten-minute and 150/180-cycle tiers in parallel.
  function Distribute(s: State, b: Block): State {
    var aggregate := A.Fold(s.aggregate, b);
    s.(ten := L.FoldTen(s.ten, b), aggregate := aggregate,
       pending := NONE.(ten := L.Reaches(s.ten, b.result), aggregate := aggregate.closed != []))
  }

  function Observed(s: State, c: Context): State { ObserveApply(ObserveTarget(s, c), c) }

  function Settle(s: State, basic: B.Basic, closed: Option<Block>): (State, seq<Record>) {
    match closed
    case None => (s.(basic := basic), [])
    case Some(block) => (Distribute(s.(basic := basic), block), [BasicRecord(block)])
  }

  // Read the packet's commands, then offer its cycle to the block assembly.
  ghost function Consume(s: State, p: Packet): (State, seq<Record>) {
    var (basic, closed) := B.Accept(Observed(s, p.context).basic, p.cycle);
    Settle(Observed(s, p.context), basic, closed)
  }

  function FinaliseAggregate(s: State): (State, seq<Record>) {
    var a := A.Finalise(s.aggregate);
    (s.(aggregate := a,
        pending := s.pending.(aggregate := false,
                              openTen := s.pending.openTen || (!L.Empty(s.ten) && !s.pending.ten))),
     [AggregateRecord(a.sequence, s.aggregate.closed)])
  }

  ghost function FinaliseTen(s: State): (State, seq<Record>) {
    var i := L.IntervalOf(s.ten);
    var two := L.FoldTwo(s.two, i);
    (s.(ten := L.FinaliseTen(s.ten), two := two,
        pending := s.pending.(ten := false, two := |two.parts| == L.INTERVALS,
                              openTwo := L.Cascades(i) && |two.parts| != L.INTERVALS)),
     [TenMinuteRecord(i)])
  }

  function FinaliseTwo(s: State): (State, seq<Record>) {
    var two := L.FinaliseTwo(s.two);
    (s.(two := two, pending := s.pending.(two := false)), [TwoHourRecord(two.sequence, s.two.parts)])
  }

  // One call of the engine: a deferred pass if one is pending, otherwise the
  // next packet if there is one.
  ghost function Invoke(s: State, input: Option<Packet>): (State, seq<Record>) {
    if s.pending.aggregate then FinaliseAggregate(s)
    else if s.pending.ten then FinaliseTen(s)
    else if s.pending.two then FinaliseTwo(s)
    else if s.pending.openTen then (s.(pending := s.pending.(openTen := false)), [OpenTenMinute(s.ten.blocks)])
    else if s.pending.openTwo then (s.(pending := s.pending.(openTwo := false)), [OpenTwoHour(s.two.parts)])
    else if input.None? then (s, [])
    else Consume(s, input.value)
  }

  ghost function Run(other: u8, inputs: seq<Option<Packet>>): (State, seq<Record>) {
    if inputs == [] then (Initial(other), [])
    else
      var (s, log) := Run(other, inputs[..|inputs| - 1]);
      var (next, more) := Invoke(s, inputs[|inputs| - 1]);
      (next, log + more)
  }

  // ---- The published log -----------------------------------------------------

  ghost function Basics(log: seq<Record>): seq<Block> {
    if log == [] then []
    else
      var last := log[|log| - 1];
      var before := Basics(log[..|log| - 1]);
      if last.BasicRecord? then before + [last.block] else before
  }

  ghost function Intervals(log: seq<Record>): seq<L.Interval> {
    if log == [] then []
    else
      var last := log[|log| - 1];
      var before := Intervals(log[..|log| - 1]);
      if last.TenMinuteRecord? then before + [last.interval] else before
  }

  // The Basic results published after the latest ten-minute record.
  ghost function BasicsSince(log: seq<Record>): seq<Block> {
    if log == [] then []
    else
      var last := log[|log| - 1];
      if last.TenMinuteRecord? then []
      else if last.BasicRecord? then BasicsSince(log[..|log| - 1]) + [last.block]
      else BasicsSince(log[..|log| - 1])
  }

  // What every record owes to the records published before it.
  ghost predicate Justified(before: seq<Record>, r: Record, other: u8) {
    match r
    case BasicRecord(b) => B.Sound(b, other) && b.result.sequence == (|Basics(before)| + 1) % B32
    case AggregateRecord(_, blocks) => A.Complete(blocks) && SuffixOf(blocks, Basics(before))
    case TenMinuteRecord(i) => L.SoundInterval(i) && i.since == BasicsSince(before)
    case TwoHourRecord(_, parts) => L.SoundTwoHour(parts) && SuffixOf(parts, Intervals(before))
    case OpenTenMinute(_) => true
    case OpenTwoHour(_) => true
  }

  ghost predicate JustifiedAt(log: seq<Record>, k: nat, other: u8)
    requires k < |log|
  {
    Justified(log[..k], log[k], other)
  }

  ghost predicate AllJustified(log: seq<Record>, other: u8) {
    forall k :: 0 <= k < |log| ==> JustifiedAt(log, k, other)
  }

  // ---- The invariant ----------------------------------------------------------

  ghost predicate TiersHold(s: State) {
    B.Inv(s.basic) && A.Inv(s.aggregate) && L.InvTen(s.ten) && L.InvTwo(s.two, s.ten.previous)
  }

  // A tier is armed exactly when its image is complete and waiting.
  ghost predicate Armed(aggregate: A.Aggregate, ten: L.TenMinute, two: L.TwoHour, pending: Pending) {
    && (pending.aggregate <==> aggregate.closed != [])
    && (if pending.ten then L.Reached(ten.blocks, ten.closedTarget) && !pending.two
        else L.AllBefore(ten.blocks, ten.target))
    && (pending.two <==> |two.parts| == L.INTERVALS)
  }

  // Basic numbers count the Basic records, and go on from the previous
  // ten-minute interval's last one.
  ghost predicate Counted(sequence: u32, basics: nat, previous: u32, since: nat) {
    sequence == basics % B32 && sequence == (previous + since) % B32
  }

  lemma CountedNext(sequence: u32, basics: nat, previous: u32, since: nat)
    requires Counted(sequence, basics, previous, since)
    ensures Counted(Add32(sequence, 1), basics + 1, previous, since + 1)
    ensures Add32(sequence, 1) == (basics + 1) % B32 == (previous + 1 + since) % B32
  {
  }

  ghost predicate Logged(aggregate: A.Aggregate, ten: L.TenMinute, two: L.TwoHour, log: seq<Record>) {
    && SuffixOf(aggregate.active, Basics(log))
    && SuffixOf(aggregate.closed, Basics(log))
    && ten.since == BasicsSince(log)
    && SuffixOf(two.parts, Intervals(log))
  }

  ghost predicate Inv(s: State, log: seq<Record>) {
    TiersHold(s) && Armed(s.aggregate, s.ten, s.two, s.pending) &&
    Logged(s.aggregate, s.ten, s.two, log) &&
    Counted(s.basic.sequence, |Basics(log)|, s.ten.previous, |s.ten.since|)
  }

  lemma LogAppend(log: seq<Record>, r: Record)
    ensures Basics(log + [r]) == if r.BasicRecord? then Basics(log) + [r.block] else Basics(log)
    ensures Intervals(log + [r]) == if r.TenMinuteRecord? then Intervals(log) + [r.interval] else Intervals(log)
    ensures BasicsSince(log + [r])
         == if r.TenMinuteRecord? then [] else if r.BasicRecord? then BasicsSince(log) + [r.block] else BasicsSince(log)
  {
    assert (log + [r])[..|log|] == log;
  }

  lemma JustifiedAppend(log: seq<Record>, r: Record, other: u8)
    requires AllJustified(log, other) && Justified(log, r, other)
    ensures AllJustified(log + [r], other)
  {
    hide Justified;
    var all := log + [r];
    forall k | 0 <= k < |all| ensures JustifiedAt(all, k, other) {
      if k < |log| {
        assert JustifiedAt(log, k, other);
        assert all[..k] == log[..k];
      } else {
        assert all[..k] == log;
      }
    }
  }

  // ---- Every step preserves the invariant ---------------------------------------

  lemma FinaliseAggregatePreserves(s: State, log: seq<Record>, other: u8)
    requires Inv(s, log) && s.pending.aggregate
    ensures var (t, more) := FinaliseAggregate(s);
            && |more| == 1 && Justified(log, more[0], other)
            && Inv(t, log + more) && t.basic == s.basic
  {
    var r := FinaliseAggregate(s).1[0];
    A.OthersPreserve(s.aggregate);
    assert A.Complete(s.aggregate.closed);
    hide B.Inv, A.Inv, A.Complete, L.InvTen, L.InvTwo, L.Reached, L.AllBefore, Counted;
    LogAppend(log, r);
    hide Basics, Intervals, BasicsSince;
  }

  lemma FinaliseTenTiers(s: State)
    requires TiersHold(s) && Armed(s.aggregate, s.ten, s.two, s.pending) && s.pending.ten
    ensures var t := FinaliseTen(s).0; TiersHold(t) && Armed(t.aggregate, t.ten, t.two, t.pending)
    ensures L.SoundInterval(L.IntervalOf(s.ten))
  {
    hide B.Inv, A.Inv, L.InvTen, L.InvTwo, L.Reached, L.AllBefore, L.SoundInterval, L.FoldTwo, L.Cascades;
    PartsBounded(s.two, s.ten.previous);
    L.FinaliseTenSound(s.ten);
    L.FoldTwoPreserves(s.two, L.IntervalOf(s.ten));
    PartsBounded(L.FoldTwo(s.two, L.IntervalOf(s.ten)), (s.ten.previous + |s.ten.since|) % B32);
  }

  lemma PartsBounded(w: L.TwoHour, previous: u32)
    requires L.InvTwo(w, previous)
    ensures |w.parts| <= L.INTERVALS
  {
  }

  lemma FinaliseTenLogged(s: State, log: seq<Record>)
    requires Logged(s.aggregate, s.ten, s.two, log)
    ensures var (t, more) := FinaliseTen(s); Logged(t.aggregate, t.ten, t.two, log + more)
  {
    var i := L.IntervalOf(s.ten);
    FoldTwoSuffix(s.two, i, Intervals(log));
    LogAppend(log, TenMinuteRecord(i));
    hide L.FoldTwo, L.Cascades, SuffixOf, Basics, Intervals, BasicsSince;
  }

  lemma FinaliseTenCounted(s: State, log: seq<Record>)
    requires Counted(s.basic.sequence, |Basics(log)|, s.ten.previous, |s.ten.since|)
    ensures var (t, more) := FinaliseTen(s);
            Counted(t.basic.sequence, |Basics(log + more)|, t.ten.previous, |t.ten.since|)
  {
    LogAppend(log, TenMinuteRecord(L.IntervalOf(s.ten)));
    hide L.FoldTwo, Basics;
  }

  lemma FinaliseTenPreserves(s: State, log: seq<Record>, other: u8)
    requires Inv(s, log) && s.pending.ten
    ensures var (t, more) := FinaliseTen(s);
            && |more| == 1 && Justified(log, more[0], other)
            && Inv(t, log + more) && t.basic == s.basic
  {
    hide FinaliseTen, Logged, TiersHold, Armed, Counted, Basics, Intervals, BasicsSince, L.SoundInterval, Justified;
    FinaliseTenTiers(s);
    FinaliseTenLogged(s, log);
    FinaliseTenCounted(s, log);
    FinaliseTenRecord(s, log, other);
  }

  lemma FinaliseTenRecord(s: State, log: seq<Record>, other: u8)
    requires Logged(s.aggregate, s.ten, s.two, log) && L.SoundInterval(L.IntervalOf(s.ten))
    ensures var (t, more) := FinaliseTen(s);
            |more| == 1 && Justified(log, more[0], other) && t.basic == s.basic
  {
    hide L.SoundInterval, SuffixOf, Basics, Intervals, BasicsSince, L.FoldTwo;
  }

  lemma FoldTwoSuffix(w: L.TwoHour, i: L.Interval, all: seq<L.Interval>)
    requires SuffixOf(w.parts, all)
    ensures SuffixOf(L.FoldTwo(w, i).parts, all + [i])
  {
    SuffixAppend(w.parts, all, i);
    hide L.Cascades, L.Abuts;
  }

  lemma FinaliseTwoPreserves(s: State, log: seq<Record>, other: u8)
    requires Inv(s, log) && s.pending.two && !s.pending.ten && !s.pending.aggregate
    ensures var (t, more) := FinaliseTwo(s);
            && |more| == 1 && Justified(log, more[0], other)
            && Inv(t, log + more) && t.basic == s.basic
  {
    LogAppend(log, FinaliseTwo(s).1[0]);
    hide B.Inv, A.Inv, L.InvTen, L.Reached, L.AllBefore, L.Usable, L.Chained, Counted;
    hide Basics, Intervals, BasicsSince;
  }

  lemma PreviewPreserves(s: State, log: seq<Record>, r: Record, pending: Pending)
    requires Inv(s, log) && (r.OpenTenMinute? || r.OpenTwoHour?)
    requires pending == s.pending.(openTen := pending.openTen, openTwo := pending.openTwo)
    ensures Inv(s.(pending := pending), log + [r])
  {
    LogAppend(log, r);
    hide B.Inv, A.Inv, L.InvTen, L.InvTwo, L.Reached, L.AllBefore, SuffixOf, Counted;
    hide Basics, Intervals, BasicsSince;
  }

  // No deferred pass is waiting for its interval.
  ghost predicate Idle(s: State) { !s.pending.aggregate && !s.pending.ten && !s.pending.two }

  lemma IdleIsReady(s: State, log: seq<Record>)
    requires Inv(s, log) && Idle(s)
    ensures s.aggregate.closed == [] && |s.ten.blocks| <= B16
  {
  }

  lemma PendingIsReady(s: State, log: seq<Record>)
    requires Inv(s, log)
    ensures s.pending.aggregate ==> s.aggregate.closed != []
    ensures s.pending.ten ==> s.ten.blocks != [] && |s.two.parts| < L.INTERVALS
    ensures s.pending.two ==> s.two.parts != []
    ensures TiersHold(s)
  {
  }

  lemma TargetEffects(s: State, c: Context)
    requires TiersHold(s)
    ensures var b := B.OnTarget(s.basic, c); B.Inv(b) && b.sequence == s.basic.sequence && b.other == s.basic.other
    ensures var a := A.OnTarget(s.aggregate);
            A.Inv(a) && a.active == s.aggregate.active && a.closed == s.aggregate.closed
    ensures var t := L.OnTarget(s.ten, c);
            && L.InvTen(t) && L.AllBefore(t.blocks, t.target)
            && t.since == s.ten.since && t.previous == s.ten.previous
    ensures L.InvTwo(L.Drop(s.two), s.ten.previous) && L.Drop(s.two).parts == []
  {
    B.CommandsPreserve(s.basic, c);
    A.OthersPreserve(s.aggregate);
    L.OnTargetPreserves(s.ten, c);
  }

  lemma ObserveTargetPreserves(s: State, log: seq<Record>, c: Context)
    requires Inv(s, log) && Idle(s)
    ensures var t := ObserveTarget(s, c);
            && Inv(t, log) && Idle(t) && t.basic.other == s.basic.other
  {
    TargetEffects(s, c);
    hide B.Inv, A.Inv, L.InvTen, L.InvTwo, L.AllBefore, L.Reached, Basics, Intervals, BasicsSince, Counted;
    hide B.OnTarget, A.OnTarget, L.OnTarget, L.Drop;
  }

  lemma ObserveApplyPreserves(s: State, log: seq<Record>, c: Context)
    requires Inv(s, log) && Idle(s)
    ensures var t := ObserveApply(s, c);
            && Inv(t, log) && Idle(t) && t.basic.other == s.basic.other
  {
    B.CommandsPreserve(s.basic, c);
    DropPreserves(s.two, s.ten.previous);
    hide B.Inv, A.Inv, L.InvTen, L.InvTwo, L.AllBefore, L.Reached, Basics, Intervals, BasicsSince, Counted;
  }

  lemma DropPreserves(w: L.TwoHour, previous: u32)
    ensures L.InvTwo(L.Drop(w), previous)
  {
  }

  lemma AggregateSuffix(a: A.Aggregate, b: Block, all: seq<Block>)
    requires A.Inv(a) && a.closed == [] && SuffixOf(a.active, all)
    ensures SuffixOf(A.Fold(a, b).active, all + [b]) && SuffixOf(A.Fold(a, b).closed, all + [b])
  {
    var base := A.Restart(A.Observe(a, b.result.apply), b.result);
    var joined := A.Join(base, b);
    A.FoldCases(a, b);
    assert SuffixOf([], all + [b]);
    SuffixAppend(base.active, all, b);
    if joined.shadow != [] { SuffixTransitive(joined.shadow, joined.active, all + [b]); }
    hide A.Fold, A.Restart, A.Observe, SuffixOf, A.Inv;
  }

  lemma TenGathers(t: L.TenMinute, b: Block)
    ensures L.FoldTen(t, b).since == t.since + [b] && L.FoldTen(t, b).previous == t.previous
  {
    L.FoldTenFields(t, b);
  }

  lemma LoggedAppend(s: State, log: seq<Record>, b: Block)
    requires A.Inv(s.aggregate) && s.aggregate.closed == [] && Logged(s.aggregate, s.ten, s.two, log)
    ensures Logged(A.Fold(s.aggregate, b), L.FoldTen(s.ten, b), s.two, log + [BasicRecord(b)])
  {
    AggregateSuffix(s.aggregate, b, Basics(log));
    TenGathers(s.ten, b);
    LogAppend(log, BasicRecord(b));
    hide A.Inv, A.Fold, L.FoldTen, SuffixOf, Basics, Intervals, BasicsSince;
  }

  lemma CountedAppend(s: State, log: seq<Record>, b: Block)
    requires Counted(s.basic.sequence, |Basics(log)|, s.ten.previous, |s.ten.since|)
    ensures var t := L.FoldTen(s.ten, b);
            Counted(Add32(s.basic.sequence, 1), |Basics(log + [BasicRecord(b)])|, t.previous, |t.since|)
  {
    TenGathers(s.ten, b);
    LogAppend(log, BasicRecord(b));
    CountedNext(s.basic.sequence, |Basics(log)|, s.ten.previous, |s.ten.since|);
    hide L.FoldTen, Basics, Counted;
  }

  lemma ArmedAfter(s: State, b: Block)
    requires Armed(s.aggregate, s.ten, s.two, s.pending) && Idle(s) && L.InvTen(s.ten)
    requires b.result.sequence == (s.ten.previous + 1 + |s.ten.since|) % B32
    ensures var t := Distribute(s, b); Armed(t.aggregate, t.ten, t.two, t.pending) && t.ten.previous == s.ten.previous
    ensures L.InvTen(Distribute(s, b).ten)
  {
    L.FoldTenPreserves(s.ten, b);
    L.FoldTenFields(s.ten, b);
    hide L.FoldTen, L.Reaches, L.Gather, L.InvTen, L.AllBefore, L.Reached, A.Fold;
  }

  lemma QuietPreserves(s: State, log: seq<Record>, basic: B.Basic)
    requires Inv(s, log) && B.Inv(basic) && basic.sequence == s.basic.sequence
    ensures Inv(s.(basic := basic), log)
  {
    hide B.Inv, A.Inv, L.InvTen, L.InvTwo, Armed, Logged;
  }

  lemma Counters(s: State, log: seq<Record>)
    requires Inv(s, log)
    ensures Add32(s.basic.sequence, 1) == (|Basics(log)| + 1) % B32
    ensures Add32(s.basic.sequence, 1) == (s.ten.previous + 1 + |s.ten.since|) % B32
  {
    CountedNext(s.basic.sequence, |Basics(log)|, s.ten.previous, |s.ten.since|);
  }

  lemma DistributePreserves(s: State, log: seq<Record>, b: Block, basic: B.Basic)
    requires Inv(s, log) && Idle(s) && B.Inv(basic)
    requires b.result.sequence == basic.sequence == Add32(s.basic.sequence, 1)
    ensures Inv(Distribute(s.(basic := basic), b), log + [BasicRecord(b)])
  {
    assert s.aggregate.closed == [];
    Counters(s, log);
    A.FoldPreserves(s.aggregate, b);
    LoggedAppend(s, log, b);
    CountedAppend(s, log, b);
    hide Logged, Counted;
    ArmedAfter(s.(basic := basic), b);
    hide B.Inv, A.Inv, A.Fold, L.InvTen, L.InvTwo, L.FoldTen, L.Reaches, Armed;
  }

  lemma SettlePreserves(s: State, log: seq<Record>, accepted: (B.Basic, Option<Block>))
    requires Inv(s, log) && Idle(s) && B.Inv(accepted.0) && B.Numbered(s.basic, accepted)
    requires accepted.1.Some? ==> B.Sound(accepted.1.value, s.basic.other)
    ensures var (t, more) := Settle(s, accepted.0, accepted.1);
            && Inv(t, log + more) && t.basic == accepted.0
            && |more| <= 1 && (more != [] ==> Justified(log, more[0], s.basic.other))
  {
    Counters(s, log);
    match accepted.1 {
      case None =>
        QuietPreserves(s, log, accepted.0);
        assert log + [] == log;
      case Some(b) =>
        DistributePreserves(s, log, b, accepted.0);
        hide Inv, B.Sound, L.FoldTen, A.Fold, L.Reaches;
    }
  }

  lemma ConsumePreserves(s: State, log: seq<Record>, p: Packet)
    requires Inv(s, log) && Idle(s)
    ensures var (t, more) := Consume(s, p);
            && Inv(t, log + more) && t.basic.other == s.basic.other
            && |more| <= 1 && (more != [] ==> Justified(log, more[0], s.basic.other))
  {
    ObserveTargetPreserves(s, log, p.context);
    ObserveApplyPreserves(ObserveTarget(s, p.context), log, p.context);
    var observed := Observed(s, p.context);
    B.AcceptPreserves(observed.basic, p.cycle);
    SettlePreserves(observed, log, B.Accept(observed.basic, p.cycle));
    hide Observed, ObserveTarget, ObserveApply, B.Accept, Settle, Inv, Justified, B.Sound;
  }

  lemma InvokePreserves(s: State, log: seq<Record>, input: Option<Packet>)
    requires Inv(s, log)
    ensures var (t, more) := Invoke(s, input);
            && Inv(t, log + more) && t.basic.other == s.basic.other
            && |more| <= 1 && (more != [] ==> Justified(log, more[0], s.basic.other))
  {
    var other := s.basic.other;
    if s.pending.aggregate {
      FinaliseAggregatePreserves(s, log, other);
    } else if s.pending.ten {
      FinaliseTenPreserves(s, log, other);
    } else if s.pending.two {
      FinaliseTwoPreserves(s, log, other);
    } else if s.pending.openTen {
      PreviewPreserves(s, log, OpenTenMinute(s.ten.blocks), s.pending.(openTen := false));
    } else if s.pending.openTwo {
      PreviewPreserves(s, log, OpenTwoHour(s.two.parts), s.pending.(openTwo := false));
    } else if input.Some? {
      ConsumePreserves(s, log, input.value);
    } else {
      assert log + [] == log;
    }
    hide Inv, Consume, FinaliseAggregate, FinaliseTen, FinaliseTwo;
  }

  lemma InitialInv(other: u8)
    ensures Inv(Initial(other), [])
  {
  }

  lemma JustifiedExtend(log: seq<Record>, more: seq<Record>, other: u8)
    requires AllJustified(log, other) && |more| <= 1 && (more != [] ==> Justified(log, more[0], other))
    ensures AllJustified(log + more, other)
  {
    if more == [] {
      assert log + more == log;
    } else {
      JustifiedAppend(log, more[0], other);
      assert more == [more[0]];
    }
  }

  // Over every run: each published record folds exactly what it should, told
  // from the records published before it.
  lemma {:induction false} EveryRun(other: u8, inputs: seq<Option<Packet>>)
    ensures var (s, log) := Run(other, inputs);
            Inv(s, log) && s.basic.other == other && AllJustified(log, other)
  {
    if inputs == [] {
      InitialInv(other);
    } else {
      EveryRun(other, inputs[..|inputs| - 1]);
      var before := Run(other, inputs[..|inputs| - 1]);
      var input := inputs[|inputs| - 1];
      InvokePreserves(before.0, before.1, input);
      hide Inv, Invoke, Justified, AllJustified;
      JustifiedExtend(before.1, Invoke(before.0, input).1, other);
    }
  }

  // ---- Scheduling ------------------------------------------------------------------

  ghost function Drain(s: State, calls: nat): State
    decreases calls
  {
    if calls == 0 then s else Drain(Invoke(s, None).0, calls - 1)
  }

  // Three calls after a packet always finish the deferred work, well within the
  // caller's bound of eight.
  lemma DeferredWorkFinishes(s: State, log: seq<Record>, p: Packet)
    requires Inv(s, log) && s.pending == NONE
    ensures Drain(Consume(s, p).0, 3).pending == NONE
  {
    var s0 := Consume(s, p).0;
    ConsumeArms(s, log, p);
    hide Consume, Inv, L.FoldTwo, L.Cascades;
    var s1 := Invoke(s0, None).0;
    var s2 := Invoke(s1, None).0;
    assert Drain(s0, 3) == Drain(s1, 2) == Drain(s2, 1) == Drain(Invoke(s2, None).0, 0);
  }

  lemma ConsumeArms(s: State, log: seq<Record>, p: Packet)
    requires Inv(s, log) && s.pending == NONE
    ensures var q := Consume(s, p).0.pending; q == NONE.(aggregate := q.aggregate, ten := q.ten)
  {
    hide B.Accept, Inv, L.FoldTen, A.Fold, L.Reaches;
  }

  lemma DrainStep(s: State, calls: nat)
    ensures Drain(s, calls) == if calls == 0 then s else Drain(Invoke(s, None).0, calls - 1)
  {
  }

  lemma {:induction false} IdleStays(s: State, calls: nat)
    requires s.pending == NONE
    ensures Drain(s, calls) == s
  {
    if calls > 0 {
      assert Invoke(s, None).0 == s;
      IdleStays(s, calls - 1);
    }
  }

  // No accumulator changes between being armed and being finalised, whatever
  // the call and its input.
  lemma ArmedImagesKeep(s: State, input: Option<Packet>)
    ensures var (t, more) := Invoke(s, input);
            && (s.pending.aggregate ==>
                  more == [AggregateRecord(t.aggregate.sequence, s.aggregate.closed)])
            && (s.pending.ten ==>
                  || (t.pending.ten && t.ten == s.ten)
                  || more == [TenMinuteRecord(L.IntervalOf(s.ten))])
            && (s.pending.two && !s.pending.ten ==>
                  || (t.pending.two && t.two == s.two)
                  || more == [TwoHourRecord(t.two.sequence, s.two.parts)])
  {
    hide Consume, L.FoldTwo, L.Cascades;
  }

  // ---- What the records say about the published log -------------------------------

  lemma {:induction false} BasicsFold(log: seq<Record>, other: u8)
    requires AllJustified(log, other)
    ensures forall k :: 0 <= k < |Basics(log)| ==> FoldsItsCycles(Basics(log)[k])
    ensures forall k :: 0 <= k < |Basics(log)| ==> Basics(log)[k].result.sequence == (k + 1) % B32
  {
    if log != [] {
      var init := log[..|log| - 1];
      InitJustified(log, other);
      BasicsFold(init, other);
    }
  }

  lemma InitJustified(log: seq<Record>, other: u8)
    requires AllJustified(log, other) && log != []
    ensures AllJustified(log[..|log| - 1], other)
    ensures Justified(log[..|log| - 1], log[|log| - 1], other)
  {
    hide Justified;
    var init := log[..|log| - 1];
    assert JustifiedAt(log, |log| - 1, other);
    forall k | 0 <= k < |init| ensures JustifiedAt(init, k, other) {
      assert JustifiedAt(log, k, other);
      assert init[..k] == log[..k];
    }
  }

  ghost predicate AllFold(blocks: seq<Block>) {
    forall k :: 0 <= k < |blocks| ==> FoldsItsCycles(blocks[k])
  }

  lemma SuffixFolds(part: seq<Block>, all: seq<Block>)
    requires SuffixOf(part, all) && AllFold(all)
    ensures AllFold(part)
  {
    var n := |all| - |part|;
    assert forall k :: 0 <= k < |part| ==> part[k] == all[n + k];
  }

  lemma {:induction false} SinceIsSuffix(log: seq<Record>)
    ensures SuffixOf(BasicsSince(log), Basics(log))
  {
    if log != [] {
      var init := log[..|log| - 1];
      SinceIsSuffix(init);
      if log[|log| - 1].BasicRecord? { SuffixAppend(BasicsSince(init), Basics(init), log[|log| - 1].block); }
    }
  }

  ghost predicate IntervalsFold(parts: seq<L.Interval>) {
    forall k :: 0 <= k < |parts| ==> AllFold(parts[k].blocks)
  }

  lemma {:induction false} IntervalsFoldCycles(log: seq<Record>, other: u8)
    requires AllJustified(log, other)
    ensures IntervalsFold(Intervals(log))
  {
    if log != [] {
      var init, last := log[..|log| - 1], log[|log| - 1];
      InitJustified(log, other);
      IntervalsFoldCycles(init, other);
      BasicsFold(init, other);
      if last.TenMinuteRecord? {
        SinceIsSuffix(init);
        SuffixFolds(BasicsSince(init), Basics(init));
        SuffixFolds(last.interval.blocks, BasicsSince(init));
        hide AllFold;
        assert Intervals(log) == Intervals(init) + [last.interval];
      }
    }
  }

  // Each published 150/180-cycle record is the flat fold over every cycle of
  // the last fifteen Basic records before it.
  lemma AggregateIsFlat(log: seq<Record>, k: nat, other: u8)
    requires AllJustified(log, other) && k < |log| && log[k].AggregateRecord?
    ensures var blocks := log[k].blocks;
            && |blocks| == 15 && SuffixOf(blocks, Basics(log[..k])) && AllEligible(blocks) && OneConfiguration(blocks)
            && FlatFold(QuadOf(log[k].number, blocks).stats, blocks)
  {
    PrefixJustified(log, k, other);
    BasicsFold(log[..k], other);
    SuffixFolds(log[k].blocks, Basics(log[..k]));
    FlatOverCycles(log[k].blocks);
  }

  lemma PrefixJustified(log: seq<Record>, k: nat, other: u8)
    requires AllJustified(log, other) && k < |log|
    ensures AllJustified(log[..k], other) && Justified(log[..k], log[k], other)
  {
    hide Justified;
    assert JustifiedAt(log, k, other);
    forall j | 0 <= j < k ensures JustifiedAt(log[..k], j, other) {
      assert JustifiedAt(log, j, other);
      assert log[..k][..j] == log[..j];
    }
  }

  // An aligned ten-minute record folds every Basic record published since the
  // previous ten-minute record, and nothing else, exactly when there are at
  // most 2^16 of them.
  lemma AlignedRecordsTile(log: seq<Record>, k: nat, other: u8)
    requires AllJustified(log, other) && k < |log| && log[k].TenMinuteRecord? && L.Aligned(log[k].interval)
    ensures log[k].interval.blocks == BasicsSince(log[..k]) <==> |BasicsSince(log[..k])| <= B16
    ensures var i := log[k].interval;
            i.blocks != [] && FlatFold(QuadOf(i.number, i.blocks).stats, i.blocks)
  {
    PrefixJustified(log, k, other);
    BasicsFold(log[..k], other);
    SinceIsSuffix(log[..k]);
    SuffixFolds(BasicsSince(log[..k]), Basics(log[..k]));
    SuffixFolds(log[k].interval.blocks, BasicsSince(log[..k]));
    FlatOverCycles(log[k].interval.blocks);
  }

  lemma {:induction false} AllBlocksFold(parts: seq<L.Interval>)
    requires IntervalsFold(parts)
    ensures AllFold(L.AllBlocks(parts))
  {
    if parts != [] {
      AllBlocksFold(parts[..|parts| - 1]);
      assert AllFold(parts[|parts| - 1].blocks);
    }
  }

  // Each two-hour record is the flat fold over every cycle of the last twelve
  // ten-minute records; with no counter wrap those cycles make one unbroken
  // run of Basic results.
  lemma TwoHourIsFlat(log: seq<Record>, k: nat, other: u8)
    requires AllJustified(log, other) && k < |log| && log[k].TwoHourRecord?
    ensures var parts := log[k].parts;
            && |parts| == 12 && SuffixOf(parts, Intervals(log[..k]))
            && (forall j :: 0 <= j < 12 ==> L.Aligned(parts[j]))
            && L.AllBlocks(parts) != []
            && FlatFold(Fold(BlockStats(L.AllBlocks(parts))), L.AllBlocks(parts))
            && (forall j :: 0 <= j < 12 ==> parts[j].blocks != [])
            && Fold(L.PartStats(parts)) == Fold(BlockStats(L.AllBlocks(parts)))
    ensures (forall j :: 0 <= j < 12 ==> |log[k].parts[j].since| <= B16)
        ==> L.NumberedAfter(L.AllBlocks(log[k].parts), log[k].parts[0].previous)
    ensures (forall j :: 0 <= j < 12 ==> |log[k].parts[j].since| <= B16 && Samples(log[k].parts[j].blocks) < B32)
        ==> L.EachContinues(L.AllBlocks(log[k].parts))
  {
    PrefixJustified(log, k, other);
    IntervalsFoldCycles(log[..k], other);
    var parts, all := log[k].parts, Intervals(log[..k]);
    L.SoundNonEmpty(parts);
    forall j | 0 <= j < 12 ensures AllFold(parts[j].blocks) && L.Aligned(parts[j]) {
      assert parts[j] == all[|all| - 12 + j];
      assert L.Usable(parts[j]);
    }
    AllBlocksFold(parts);
    L.CascadeIsFlat(parts);
    FlatOverCycles(L.AllBlocks(parts));
    if forall j :: 0 <= j < 12 ==> |parts[j].since| <= B16 { L.TwoHourOmitsNothing(parts); }
    if forall j :: 0 <= j < 12 ==> |parts[j].since| <= B16 && Samples(parts[j].blocks) < B32 {
      L.TwoHourContinues(parts);
    }
  }
}
