/** The aggregation engine: four tiers fed in place, one invocation at a time,
    refining IntervalTree. */
module AggregationEngine {
  import opened Words
  import opened IntervalTypes
  import T = IntervalTree
  import B = BasicTier
  import A = AggregateTier
  import L = LongTiers
  import BasicAssembler
  import AggregateAssembler
  import LongAssemblers

  // A published record as the engine computes it from its accumulators.
  datatype Published =
    | BasicQuad(result: Result)
    | AggregateQuad(quad: Quad)
    | TenMinuteQuad(quad: Quad, aligned: bool, count: u16, target: u64, overshoot: u32)
    | TwoHourQuad(quad: Quad)
    | OpenTenMinuteQuad(quad: Quad)
    | OpenTwoHourQuad(quad: Quad)

  // A published record is exactly the record of the results it folds.
  ghost predicate Publishes(p: Published, r: T.Record) {
    match r
    case BasicRecord(block) => p == BasicQuad(block.result)
    case AggregateRecord(number, blocks) => blocks != [] && p == AggregateQuad(QuadOf(number, blocks))
    case TenMinuteRecord(i) =>
      && i.blocks != []
      && p == TenMinuteQuad(QuadOf(i.number, i.blocks), L.Aligned(i), |i.blocks| % B16, i.target, i.overshoot)
    case TwoHourRecord(number, parts) =>
      && parts != [] && L.AllBlocks(parts) != []
      && p == TwoHourQuad(LongAssemblers.TwoHourQuad(number, parts))
    case OpenTenMinute(open) => p.OpenTenMinuteQuad? && (open != [] ==> p.quad == QuadOf(0, open))
    case OpenTwoHour(parts) =>
      && p.OpenTwoHourQuad?
      && (parts != [] ==> L.AllBlocks(parts) != [] && p.quad == LongAssemblers.TwoHourQuad(0, parts))
  }

  ghost predicate PublishesAll(published: seq<Published>, records: seq<T.Record>) {
    |published| == |records| && forall k :: 0 <= k < |records| ==> Publishes(published[k], records[k])
  }

  class Engine {
    const basic: BasicAssembler.Assembler
    const aggregate: AggregateAssembler.Assembler
    const ten: LongAssemblers.TenMinuteAssembler
    const two: LongAssemblers.TwoHourAssembler
    var pending: T.Pending
    // Everything published so far.
    ghost var log: seq<T.Record>

    ghost function Repr(): set<object>
      reads this
    {
      {this, basic, basic.slots, aggregate, aggregate.slots, ten, two}
    }

    ghost function View(): T.State
      reads Repr()
    {
      T.State(basic.View(), aggregate.View(), ten.View(), two.View(), pending)
    }

    // Every accumulator holds exactly its list.
    ghost predicate Exact()
      reads Repr()
    {
      basic.Valid() && aggregate.Valid() && ten.Exact() && two.Exact()
    }

    ghost predicate Valid()
      reads Repr()
    {
      Exact() && T.Inv(View(), log) && T.AllJustified(log, basic.other)
    }

    constructor (other: u8)
      ensures Valid() && View() == T.Initial(other) && log == [] && fresh(Repr())
    {
      T.InitialInv(other);
      hide BasicAssembler.Assembler.Valid, AggregateAssembler.Assembler.Valid, T.Inv;
      hide LongAssemblers.TenMinuteAssembler.Exact, LongAssemblers.TwoHourAssembler.Exact;
      basic := new BasicAssembler.Assembler(other);
      aggregate := new AggregateAssembler.Assembler();
      ten := new LongAssemblers.TenMinuteAssembler();
      two := new LongAssemblers.TwoHourAssembler();
      pending, log := T.NONE, [];
    }

    method ObserveTarget(c: Context)
      requires Exact() && T.Idle(View()) && aggregate.closed == []
      modifies Repr()
      ensures Exact() && View() == T.ObserveTarget(old(View()), c) && log == old(log)
    {
      hide BasicAssembler.Assembler.Valid, AggregateAssembler.Assembler.Valid;
      hide B.OnTarget, A.OnTarget, L.OnTarget, L.Drop;
      if c.targetUpdate != ten.updateSeen {
        ten.OnTarget(c);
        basic.OnTarget(c);
        aggregate.OnTarget();
        two.Drop();
      }
    }

    method ObserveApply(c: Context)
      requires Exact()
      modifies Repr()
      ensures Exact() && View() == T.ObserveApply(old(View()), c) && log == old(log)
    {
      hide BasicAssembler.Assembler.Valid, AggregateAssembler.Assembler.Valid, B.OnApply, L.Drop;
      if c.apply != basic.applySeen {
        basic.OnApply(c);
        two.Drop();
      }
    }

    method Distribute(r: Result, ghost b: Block)
      requires Exact() && T.Idle(View()) && aggregate.closed == [] && b.result == r && |ten.list| <= B16
      modifies Repr()
      ensures Exact() && View() == T.Distribute(old(View()), b) && log == old(log)
    {
      hide BasicAssembler.Assembler.Valid, A.Fold, L.FoldTen, L.Reaches;
      var armedTen := ten.Fold(r, b);
      var armedAggregate := aggregate.Fold(r, b);
      pending := T.NONE.(ten := armedTen, aggregate := armedAggregate);
    }

    method Settle(c: Cycle, ghost accepted: (B.Basic, Option<Block>)) returns (published: seq<Published>)
      requires Exact() && T.Idle(View()) && aggregate.closed == [] && |ten.list| <= B16
      requires accepted == B.Accept(basic.View(), c)
      modifies Repr()
      ensures Exact() && View() == T.Settle(old(View()), accepted.0, accepted.1).0 && log == old(log)
      ensures PublishesAll(published, T.Settle(old(View()), accepted.0, accepted.1).1)
    {
      hide AggregateAssembler.Assembler.Valid, B.Accept, T.Distribute;
      published := [];
      var result := basic.Accept(c);
      if result.Some? {
        Distribute(result.value, accepted.1.value);
        published := [BasicQuad(result.value)];
      }
    }

    method Consume(p: Packet) returns (published: seq<Published>)
      requires Exact() && T.Inv(View(), log) && T.Idle(View())
      modifies Repr()
      ensures Exact() && View() == T.Consume(old(View()), p).0 && log == old(log)
      ensures PublishesAll(published, T.Consume(old(View()), p).1)
    {
      T.ObserveTargetPreserves(View(), log, p.context);
      T.ObserveApplyPreserves(T.ObserveTarget(View(), p.context), log, p.context);
      T.IdleIsReady(View(), log);
      T.IdleIsReady(T.Observed(View(), p.context), log);
      hide BasicAssembler.Assembler.Valid, AggregateAssembler.Assembler.Valid, T.Inv, T.Idle;
      hide T.ObserveTarget, T.ObserveApply, T.Settle, B.Accept;
      ObserveTarget(p.context);
      ObserveApply(p.context);
      published := Settle(p.cycle, B.Accept(basic.View(), p.cycle));
    }

    method FinaliseAggregate() returns (published: seq<Published>)
      requires Exact() && aggregate.closed != []
      modifies Repr()
      ensures Exact() && View() == T.FinaliseAggregate(old(View())).0 && log == old(log)
      ensures PublishesAll(published, T.FinaliseAggregate(old(View())).1)
    {
      hide BasicAssembler.Assembler.Valid, AggregateAssembler.Assembler.Valid;
      var quad := aggregate.Finalise();
      var open := ten.blocks != 0 && !pending.ten;
      pending := pending.(aggregate := false, openTen := pending.openTen || open);
      published := [AggregateQuad(quad)];
    }

    // The closed ten-minute accumulator joins the two-hour interval.
    method Cascade(quad: Quad, aligned: bool, count: u16, ghost i: L.Interval)
      requires Exact() && L.InvTwo(two.View(), i.previous) && |two.parts| < L.INTERVALS
      requires i.blocks != [] && quad == QuadOf(i.number, i.blocks)
      requires aligned == L.Aligned(i) && count == |i.blocks| % B16
      modifies this`pending, two
      ensures Exact() && log == old(log) && two.View() == L.FoldTwo(old(two.View()), i)
      ensures pending == old(pending).(ten := false, two := |two.parts| == L.INTERVALS,
                                       openTwo := L.Cascades(i) && |two.parts| != L.INTERVALS)
    {
      hide BasicAssembler.Assembler.Valid, AggregateAssembler.Assembler.Valid, L.InvTwo, L.FoldTwo;
      hide LongAssemblers.TenMinuteAssembler.Exact, LongAssemblers.CascadeHolds;
      var eligible := aligned && count != 0 && (quad.nominal == 50 || quad.nominal == 60);
      assert eligible == L.Cascades(i);
      hide QuadOf, L.Cascades;
      var armed := two.Fold(quad, aligned, count, i);
      pending := pending.(ten := false, two := armed, openTwo := eligible && !armed);
    }

    method FinaliseTen() returns (published: seq<Published>)
      requires Exact() && T.TiersHold(View()) && ten.list != [] && |two.parts| < L.INTERVALS
      modifies Repr()
      ensures Exact() && View() == T.FinaliseTen(old(View())).0 && log == old(log)
      ensures PublishesAll(published, T.FinaliseTen(old(View())).1)
    {
      hide BasicAssembler.Assembler.Valid, AggregateAssembler.Assembler.Valid;
      hide L.InvTwo, L.InvTen, B.Inv, A.Inv, L.FoldTwo, QuadOf, L.Cascades;
      hide LongAssemblers.TenMinuteAssembler.Exact, LongAssemblers.TwoHourAssembler.Exact;
      ghost var i := L.IntervalOf(ten.View());
      var target, overshoot := ten.closedTarget, ten.overshoot;
      var quad, aligned, count := ten.Finalise();
      Cascade(quad, aligned, count, i);
      published := [TenMinuteQuad(quad, aligned, count, target, overshoot)];
    }

    method FinaliseTwo() returns (published: seq<Published>)
      requires Exact() && two.parts != []
      modifies Repr()
      ensures Exact() && View() == T.FinaliseTwo(old(View())).0 && log == old(log)
      ensures PublishesAll(published, T.FinaliseTwo(old(View())).1)
    {
      hide BasicAssembler.Assembler.Valid, AggregateAssembler.Assembler.Valid;
      var quad := two.Finalise();
      pending := pending.(two := false);
      published := [TwoHourQuad(quad)];
    }

    method Preview() returns (published: seq<Published>)
      requires Exact() && T.Idle(View()) && (pending.openTen || pending.openTwo)
      modifies this`pending
      ensures Exact() && View() == T.Invoke(old(View()), None).0
      ensures PublishesAll(published, T.Invoke(old(View()), None).1)
    {
      hide BasicAssembler.Assembler.Valid, AggregateAssembler.Assembler.Valid;
      if pending.openTen {
        pending := pending.(openTen := false);
        published := [OpenTenMinuteQuad(LongAssemblers.ToQuad(ten.held, 0))];
      } else {
        pending := pending.(openTwo := false);
        published := [OpenTwoHourQuad(LongAssemblers.ToQuad(two.held, 0))];
      }
    }

    // One call: the first pending pass, else the next packet if there is one.
    method Dispatch(input: Option<Packet>) returns (published: seq<Published>)
      requires Exact() && T.Inv(View(), log)
      modifies Repr()
      ensures Exact() && View() == T.Invoke(old(View()), input).0 && log == old(log)
      ensures PublishesAll(published, T.Invoke(old(View()), input).1)
    {
      T.PendingIsReady(View(), log);
      hide BasicAssembler.Assembler.Valid, AggregateAssembler.Assembler.Valid, Exact;
      hide T.Inv, T.TiersHold, T.FinaliseAggregate, T.FinaliseTen, T.FinaliseTwo, T.Consume, Publishes;
      if pending.aggregate {
        published := FinaliseAggregate();
      } else if pending.ten {
        published := FinaliseTen();
      } else if pending.two {
        published := FinaliseTwo();
      } else if pending.openTen || pending.openTwo {
        published := Preview();
      } else if input.Some? {
        published := Consume(input.value);
      } else {
        published := [];
      }
    }

    ghost method Append(more: seq<T.Record>)
      requires Exact()
      modifies this`log
      ensures Exact() && View() == old(View()) && log == old(log) + more
    {
      hide BasicAssembler.Assembler.Valid, AggregateAssembler.Assembler.Valid;
      hide LongAssemblers.TenMinuteAssembler.Exact, LongAssemblers.TwoHourAssembler.Exact;
      log := log + more;
    }

    method Invoke(input: Option<Packet>) returns (published: seq<Published>)
      requires Valid()
      modifies Repr()
      ensures Valid() && View() == T.Invoke(old(View()), input).0
      ensures log == old(log) + T.Invoke(old(View()), input).1
      ensures PublishesAll(published, T.Invoke(old(View()), input).1)
    {
      ghost var before := View();
      T.InvokePreserves(before, log, input);
      T.JustifiedExtend(log, T.Invoke(before, input).1, basic.other);
      hide T.Invoke, T.Inv, T.Justified, PublishesAll, T.AllJustified, Exact;
      published := Dispatch(input);
      Append(T.Invoke(before, input).1);
    }

    // One packet and its deferred passes: the bound of eight passes is never
    // what stops the drain.
    method Process(p: Packet) returns (finished: bool)
      requires Valid() && pending == T.NONE
      modifies Repr()
      ensures Valid() && finished && pending == T.NONE
      ensures View() == T.Drain(T.Consume(old(View()), p).0, 3)
    {
      ghost var consumed := T.Consume(View(), p).0;
      ghost var final := T.Drain(consumed, 3);
      T.DeferredWorkFinishes(View(), log, p);
      assert T.Invoke(View(), Some(p)).0 == consumed;
      hide T.Consume, T.Invoke, T.Inv, T.Drain, Exact, T.AllJustified, PublishesAll;
      var _ := Invoke(Some(p));
      var pass := 0;
      while pending != T.NONE && pass < 8
        invariant Valid() && 0 <= pass <= 3
        invariant T.Drain(View(), 3 - pass) == final
        decreases 8 - pass
      {
        T.DrainStep(View(), 3 - pass);
        RunPass(3 - pass);
        pass := pass + 1;
      }
      T.DrainStep(View(), 3 - pass);
      if pending == T.NONE { T.IdleStays(View(), 3 - pass); }
      finished := pending == T.NONE;
    }

    // One deferred pass, leaving the rest of the drain to do.
    method RunPass(ghost calls: nat)
      requires Valid() && calls > 0
      modifies Repr()
      ensures Valid() && T.Drain(View(), calls - 1) == T.Drain(old(View()), calls)
    {
      T.DrainStep(View(), calls);
      hide T.Invoke, T.Inv, T.Drain, Exact, T.AllJustified, PublishesAll;
      var _ := Invoke(None);
    }
  }
}
