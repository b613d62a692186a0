/** Energy counters: exact integration in 1/128000-second ticks with a carried
    remainder, and the session that decides which blocks are integrated. */
module Energy {
  import opened Words

  const TICK_RATE: nat := 128_000
  // Picowatt ticks in one microwatt-hour.
  const UNIT: nat := 460_800_000_000_000

  predicate Supported(rate: u32) { 1000 <= rate <= TICK_RATE && TICK_RATE % rate == 0 }

  datatype Counter = Counter(value: u64, remainder: u64)

  // The exact contribution of one block, in picowatt ticks.
  function Contribution(power: u64, samples: u32, rate: u32): nat {
    if Supported(rate) then power * samples * (TICK_RATE / rate) else 0
  }

  // The numerator never leaves the 128 bits it is computed in.
  lemma NumeratorFits(power: u64, samples: u32, rate: u32, remainder: u64)
    ensures Contribution(power, samples, rate) + remainder < B128
  {
    if Supported(rate) {
      MulLeBoth(power, B64, samples, B32);
      var scale := TICK_RATE / rate;
      ScaleSmall(rate);
      MulLeBoth(power * samples, B64 * B32, scale, 128);
    }
  }

  lemma ScaleSmall(rate: u32)
    requires Supported(rate)
    ensures 1 <= TICK_RATE / rate <= 128
  {
    var scale := TICK_RATE / rate;
    assert scale * rate <= TICK_RATE;
    if scale > 128 { MulLeBoth(129, scale, 1000, rate); }
    assert TICK_RATE == scale * rate + TICK_RATE % rate;
    if scale < 1 { MulLe(scale, 0, rate); }
  }

  // What a counter reads after exactly `total` picowatt ticks.
  function Reading(total: nat): u64 { Min(total / UNIT, I64_MAX) }

  ghost predicate Holds(c: Counter, total: nat) {
    && c.value == Reading(total)
    && c.remainder < UNIT
    && (total / UNIT <= I64_MAX ==> c.value * UNIT + c.remainder == total)
  }

  // One integration step, and whether it drove the counter past its limit.
  function Integrated(c: Counter, power: u64, samples: u32, rate: u32): (Counter, bool)
    requires c.value <= I64_MAX
  {
    if power == 0 || samples == 0 || !Supported(rate) then (c, false)
    else
      var numerator := Contribution(power, samples, rate) + c.remainder;
      var delta := numerator / UNIT;
      if delta > I64_MAX - c.value then (Counter(I64_MAX, 0), true)
      else (Counter(c.value + delta, numerator % UNIT), false)
  }

  lemma CarryExact(value: nat, remainder: nat, total: nat, amount: nat)
    requires value * UNIT + remainder == total && remainder < UNIT
    ensures var n := amount + remainder;
            && (total + amount) / UNIT == value + n / UNIT
            && (value + n / UNIT) * UNIT + n % UNIT == total + amount
  {
    var n := amount + remainder;
    assert n == n / UNIT * UNIT + n % UNIT;
    DivUnique(total + amount, UNIT, value + n / UNIT);
  }

  lemma Grows(total: nat, amount: nat)
    ensures total / UNIT <= (total + amount) / UNIT
  {
  }

  // The step keeps the counter exact; it saturates exactly when the total has
  // passed the limit, unless the counter was past it already.
  lemma IntegratedHolds(c: Counter, total: nat, power: u64, samples: u32, rate: u32)
    requires Holds(c, total)
    ensures var (next, clipped) := Integrated(c, power, samples, rate);
            var after := total + Contribution(power, samples, rate);
            && Holds(next, after)
            && (clipped ==> after / UNIT > I64_MAX)
            && (after / UNIT > I64_MAX ==> clipped || total / UNIT > I64_MAX)
  {
    var amount := Contribution(power, samples, rate);
    if power == 0 || samples == 0 || !Supported(rate) {
      assert amount == 0;
    } else {
      Grows(total, amount);
      if total / UNIT <= I64_MAX {
        CarryExact(c.value, c.remainder, total, amount);
      } else {
        assert c.value == I64_MAX;
      }
    }
  }

  // ---- The session -----------------------------------------------------------

  const PHASES: nat := 4
  const LANES: nat := 28

  // A coherent Basic family. The reactive quadrant is computed elsewhere.
  datatype Family = Family(
    seen: bool, complete: bool, sequence: u32, sampleCount: u32, rate: u32, firstSample: u64, lastSample: u64,
    trusted: bool, discontinuity: bool,
    summaryValid: seq<bool>, quadrantValid: seq<bool>,
    active: seq<i64>, apparent: seq<u64>, reactive: seq<i64>, quadrant: seq<Option<nat>>)

  predicate Shaped(f: Family) {
    && |f.summaryValid| == |f.quadrantValid| == |f.active| == |f.apparent| == |f.reactive| == |f.quadrant| == PHASES
    && forall k :: 0 <= k < PHASES ==> f.quadrant[k].Some? ==> f.quadrant[k].value < 4
  }

  type Basic = f: Family | Shaped(f)
    witness Family(false, false, 0, 0, 0, 0, 0, false, false, [false, false, false, false], [false, false, false, false],
                   [0, 0, 0, 0], [0, 0, 0, 0], [0, 0, 0, 0], [None, None, None, None])

  // Seven groups of lanes (import, export and apparent energy, then the four
  // quadrants), each for three phases and the total.
  const IMPORT: nat := 0
  const EXPORT: nat := 1
  const APPARENT: nat := 2
  const QUADRANTS: nat := 3
  const GROUPS: nat := 7

  function Lane(group: nat, k: nat): nat { 4 * group + k }

  function Magnitude(x: i64): u64 { Abs(x) }

  function AllTrue(flags: seq<bool>): bool { forall k :: 0 <= k < |flags| ==> flags[k] }

  predicate Eligible(f: Family) { f.sampleCount != 0 && Supported(f.rate) && f.trusted && !f.discontinuity }

  // The power a family adds to one phase of a group.
  function PowerAt(f: Basic, group: nat, k: nat): u64
    requires k < PHASES
  {
    if group == 0 then if f.summaryValid[k] && f.active[k] >= 0 then Magnitude(f.active[k]) else 0
    else if group == 1 then if f.summaryValid[k] && f.active[k] < 0 then Magnitude(f.active[k]) else 0
    else if group == 2 then if f.summaryValid[k] then f.apparent[k] else 0
    else if f.quadrantValid[k] && f.quadrant[k] == Some(group - 3) then Magnitude(f.reactive[k])
    else 0
  }

  function LaneContribution(f: Basic, lane: nat): nat
    requires lane < LANES
  {
    Contribution(PowerAt(f, lane / 4, lane % 4), f.sampleCount, f.rate)
  }

  ghost function Total(families: seq<Basic>, lane: nat): nat
    requires lane < LANES
  {
    if families == [] then 0
    else Total(families[..|families| - 1], lane) + LaneContribution(families[|families| - 1], lane)
  }

  datatype Session = Session(
    started: bool, have: bool, lastSequence: u32, lastSample: u64,
    accepted: u64, skipped: u64, acceptedBlocks: u32, skippedBlocks: u32,
    incomplete: bool, discontinuity: bool)

  function Fresh(): Session { Session(false, false, 0, 0, 0, 0, 0, 0, false, false) }

  function AddClamped64(x: u64, y: nat): u64 { Min(x + y, U64_MAX) }
  function AddClamped32(x: u32, y: nat): u32 { Min(x + y, B32 - 1) }

  function Advance(s: Session, f: Family): u32 { (f.sequence - s.lastSequence) % B32 }

  predicate Repeats(s: Session, f: Family) {
    s.have && !(0 < Advance(s, f) < 0x8000_0000)
  }

  function Remember(s: Session, f: Family): Session {
    s.(have := true, lastSequence := f.sequence, lastSample := f.lastSample)
  }

  function NoteGap(s: Session, f: Family): Session {
    if !s.have || Advance(s, f) <= 1 then s
    else
      var missing := if f.firstSample > s.lastSample + 1 && s.lastSample != U64_MAX
                     then f.firstSample - s.lastSample - 1 else 0;
      s.(skippedBlocks := AddClamped32(s.skippedBlocks, Advance(s, f) - 1),
         skipped := AddClamped64(s.skipped, missing), incomplete := true, discontinuity := true)
  }

  // The outcome for one finished family: the session after it and whether its
  // samples are integrated.
  function Admit(s: Session, f: Basic): (Session, bool) {
    if !f.complete then
      if !s.started then (s, false)
      else if !f.seen then (s.(incomplete := true, discontinuity := true), false)
      else
        (Remember(s, f).(skipped := AddClamped64(s.skipped, f.sampleCount),
                         skippedBlocks := AddClamped32(s.skippedBlocks, 1),
                         incomplete := true, discontinuity := true), false)
    else if !s.started && !(Eligible(f) && AllTrue(f.summaryValid) && AllTrue(f.quadrantValid)) then (s, false)
    else
      var begun := s.(started := true);
      if Repeats(begun, f) then
        (begun.(skippedBlocks := AddClamped32(s.skippedBlocks, 1), incomplete := true, discontinuity := true), false)
      else
        var noted := NoteGap(begun, f);
        var marked := noted.(discontinuity := noted.discontinuity || f.discontinuity);
        if !Eligible(f) then
          (Remember(marked, f).(skipped := AddClamped64(marked.skipped, f.sampleCount),
                                skippedBlocks := AddClamped32(marked.skippedBlocks, 1), incomplete := true), false)
        else
          (Remember(marked, f).(accepted := AddClamped64(marked.accepted, f.sampleCount),
                                acceptedBlocks := AddClamped32(marked.acceptedBlocks, 1),
                                incomplete := marked.incomplete || !AllTrue(f.summaryValid) || !AllTrue(f.quadrantValid)),
           true)
  }

  // ---- The engine in place -----------------------------------------------------

  ghost predicate Exceeds(total: nat) { total / UNIT > I64_MAX }

  ghost predicate AllHold(counters: seq<Counter>, totals: seq<nat>) {
    |counters| == |totals| == LANES && forall lane :: 0 <= lane < LANES ==> Holds(counters[lane], totals[lane])
  }

  ghost predicate SomeExceeds(totals: seq<nat>) {
    exists lane :: 0 <= lane < |totals| && Exceeds(totals[lane])
  }

  lemma LaneKeeps(counters: seq<Counter>, totals: seq<nat>, saturated: bool, lane: nat,
    power: u64, samples: u32, rate: u32)
    requires AllHold(counters, totals) && (saturated <==> SomeExceeds(totals)) && lane < LANES
    ensures var (next, clipped) := Integrated(counters[lane], power, samples, rate);
            var after := totals[lane := totals[lane] + Contribution(power, samples, rate)];
            && AllHold(counters[lane := next], after)
            && (saturated || clipped <==> SomeExceeds(after))
  {
    IntegratedHolds(counters[lane], totals[lane], power, samples, rate);
    Grows(totals[lane], Contribution(power, samples, rate));
    hide Integrated, Contribution, Holds;
    var after := totals[lane := totals[lane] + Contribution(power, samples, rate)];
    if SomeExceeds(totals) {
      var k :| 0 <= k < LANES && Exceeds(totals[k]);
      assert Exceeds(after[k]);
    }
    if SomeExceeds(after) {
      var k :| 0 <= k < LANES && Exceeds(after[k]);
      assert k != lane ==> Exceeds(totals[k]);
    }
    if Integrated(counters[lane], power, samples, rate).1 { assert Exceeds(after[lane]); }
  }

  class Engine {
    const counters: array<Counter>
    var saturated: bool
    var session: Session
    // The families integrated so far and each lane's exact total.
    ghost var integrated: seq<Basic>
    ghost var totals: seq<nat>

    ghost predicate Exact()
      reads this`saturated, this`totals, counters
    {
      |totals| == LANES && AllHold(counters[..], totals) && (saturated <==> SomeExceeds(totals))
    }

    ghost predicate Valid()
      reads this`saturated, this`totals, this`integrated, counters
    {
      Exact() && forall lane :: 0 <= lane < LANES ==> totals[lane] == Total(integrated, lane)
    }

    constructor ()
      ensures Valid() && fresh(counters) && integrated == [] && session == Fresh() && !saturated
    {
      counters := new Counter[LANES](_ => Counter(0, 0));
      saturated, session, integrated, totals := false, Fresh(), [], seq(LANES, _ => 0);
    }

    method Integrate(lane: nat, power: u64, samples: u32, rate: u32)
      requires Exact() && lane < LANES
      modifies counters, this`saturated, this`totals
      ensures Exact() && totals == old(totals)[lane := old(totals)[lane] + Contribution(power, samples, rate)]
    {
      LaneKeeps(counters[..], totals, saturated, lane, power, samples, rate);
      hide Holds, SomeExceeds;
      ghost var before := counters[..];
      ghost var next := Integrated(before[lane], power, samples, rate);
      totals := totals[lane := totals[lane] + Contribution(power, samples, rate)];
      if power == 0 || samples == 0 || !Supported(rate) {
        assert before[lane := before[lane]] == before;
        return;
      }
      var tickScale := TICK_RATE / rate;
      var c := counters[lane];
      var numerator := power * samples * tickScale + c.remainder;
      var delta := numerator / UNIT;
      if delta > I64_MAX - c.value {
        counters[lane] := Counter(I64_MAX, 0);
        saturated := true;
      } else {
        counters[lane] := Counter(c.value + delta, numerator % UNIT);
      }
      assert counters[..] == before[lane := next.0];
    }

    method IntegrateActive(f: Basic, k: nat)
      requires Exact() && k < PHASES
      modifies counters, this`saturated, this`totals
      ensures Exact()
      ensures forall g :: 0 <= g < 2 ==>
        totals[Lane(g, k)] == old(totals)[Lane(g, k)] + Contribution(PowerAt(f, g, k), f.sampleCount, f.rate)
      ensures forall lane :: 0 <= lane < LANES && (lane >= 8 || lane % 4 != k) ==> totals[lane] == old(totals)[lane]
    {
      hide AllHold, Contribution, SomeExceeds;
      NoPower(f.sampleCount, f.rate);
      if f.summaryValid[k] {
        if f.active[k] >= 0 {
          Integrate(Lane(IMPORT, k), Magnitude(f.active[k]), f.sampleCount, f.rate);
        } else {
          Integrate(Lane(EXPORT, k), Magnitude(f.active[k]), f.sampleCount, f.rate);
        }
      }
    }

    method IntegrateApparent(f: Basic, k: nat)
      requires Exact() && k < PHASES
      modifies counters, this`saturated, this`totals
      ensures Exact()
      ensures totals[Lane(2, k)]
           == old(totals)[Lane(2, k)] + Contribution(PowerAt(f, 2, k), f.sampleCount, f.rate)
      ensures forall lane :: 0 <= lane < LANES && lane != Lane(2, k) ==> totals[lane] == old(totals)[lane]
    {
      hide AllHold, Contribution, SomeExceeds;
      NoPower(f.sampleCount, f.rate);
      if f.summaryValid[k] {
        Integrate(Lane(APPARENT, k), f.apparent[k], f.sampleCount, f.rate);
      }
    }

    method IntegrateReactive(f: Basic, k: nat)
      requires Exact() && k < PHASES
      modifies counters, this`saturated, this`totals
      ensures Exact()
      ensures forall g :: 3 <= g < GROUPS ==>
        totals[Lane(g, k)] == old(totals)[Lane(g, k)] + Contribution(PowerAt(f, g, k), f.sampleCount, f.rate)
      ensures forall lane :: 0 <= lane < LANES && (lane < 12 || lane % 4 != k) ==> totals[lane] == old(totals)[lane]
    {
      hide AllHold, Contribution, SomeExceeds;
      NoPower(f.sampleCount, f.rate);
      if f.quadrantValid[k] && f.quadrant[k].Some? {
        Integrate(Lane(QUADRANTS + f.quadrant[k].value, k), Magnitude(f.reactive[k]), f.sampleCount, f.rate);
      }
    }

    method IntegratePhase(f: Basic, k: nat)
      requires Exact() && k < PHASES
      modifies counters, this`saturated, this`totals
      ensures Exact()
      ensures forall g :: 0 <= g < GROUPS ==>
        totals[Lane(g, k)] == old(totals)[Lane(g, k)] + Contribution(PowerAt(f, g, k), f.sampleCount, f.rate)
      ensures forall lane :: 0 <= lane < LANES && lane % 4 != k ==> totals[lane] == old(totals)[lane]
    {
      hide Holds, Contribution, SomeExceeds, PowerAt;
      IntegrateActive(f, k);
      IntegrateApparent(f, k);
      IntegrateReactive(f, k);
    }

    method IntegrateFamily(f: Basic)
      requires Valid()
      modifies counters, this`saturated, this`totals, this`integrated
      ensures Valid() && integrated == old(integrated) + [f]
    {
      hide Holds, Contribution, PowerAt, SomeExceeds;
      ghost var before := totals;
      for k := 0 to PHASES
        invariant Exact() && integrated == old(integrated)
        invariant forall lane :: 0 <= lane < LANES ==>
          totals[lane] == before[lane] + if lane % 4 < k then LaneContribution(f, lane) else 0
      {
        ghost var middle := totals;
        IntegratePhase(f, k);
        forall lane | 0 <= lane < LANES
          ensures totals[lane] == before[lane] + if lane % 4 < k + 1 then LaneContribution(f, lane) else 0
        {
          if lane % 4 == k { assert lane == Lane(lane / 4, k); }
        }
      }
      integrated := integrated + [f];
      forall lane | 0 <= lane < LANES ensures totals[lane] == Total(integrated, lane) {
        TotalAppend(old(integrated), f, lane);
      }
    }

    // Every branch that decides on a finished Basic family.
    method Judge(f: Basic) returns (s: Session, accepted: bool)
      ensures (s, accepted) == Admit(session, f)
    {
      hide Eligible, AllTrue, Supported;
      s, accepted := session, false;
      if !f.complete {
        if s.started {
          s := s.(incomplete := true, discontinuity := true);
          if f.seen {
            s := Remember(s, f).(skipped := AddClamped64(s.skipped, f.sampleCount),
                                 skippedBlocks := AddClamped32(s.skippedBlocks, 1));
          }
        }
        return;
      }
      if !s.started {
        if !Eligible(f) || !AllTrue(f.summaryValid) || !AllTrue(f.quadrantValid) {
          return;
        }
        s := s.(started := true);
      }
      if Repeats(s, f) {
        s := s.(skippedBlocks := AddClamped32(s.skippedBlocks, 1), incomplete := true, discontinuity := true);
        return;
      }
      s := NoteGap(s, f);
      if f.discontinuity {
        s := s.(discontinuity := true);
      }
      accepted := Eligible(f);
      if !accepted {
        s := Remember(s, f).(skipped := AddClamped64(s.skipped, f.sampleCount),
                             skippedBlocks := AddClamped32(s.skippedBlocks, 1), incomplete := true);
      } else {
        s := Remember(s, f).(accepted := AddClamped64(s.accepted, f.sampleCount),
                             acceptedBlocks := AddClamped32(s.acceptedBlocks, 1));
        if !AllTrue(f.summaryValid) || !AllTrue(f.quadrantValid) {
          s := s.(incomplete := true);
        }
      }
    }

    method FinishBasic(f: Basic) returns (accepted: bool)
      requires Valid()
      modifies this, counters
      ensures Valid() && (session, accepted) == Admit(old(session), f)
      ensures integrated == if accepted then old(integrated) + [f] else old(integrated)
    {
      hide Admit, Exact, Total;
      session, accepted := Judge(f);
      if accepted {
        IntegrateFamily(f);
      }
    }
  }

  lemma NoPower(samples: u32, rate: u32)
    ensures Contribution(0, samples, rate) == 0
  {
  }

  lemma TotalAppend(families: seq<Basic>, f: Basic, lane: nat)
    requires lane < LANES
    ensures Total(families + [f], lane) == Total(families, lane) + LaneContribution(f, lane)
  {
    assert (families + [f])[..|families|] == families;
  }

  // ---- Conservation ----------------------------------------------------------------

  // Splitting a block leaves its contribution unchanged.
  lemma SplittingConserves(power: u64, first: u32, second: u32, rate: u32)
    requires first + second < B32
    ensures Contribution(power, first + second, rate)
         == Contribution(power, first, rate) + Contribution(power, second, rate)
  {
    if Supported(rate) {
      var scale := TICK_RATE / rate;
      assert power * (first + second) == power * first + power * second;
      assert (power * first + power * second) * scale == power * first * scale + power * second * scale;
    }
  }

  // The same energy in a block at another supported rate: `scale` times the
  // samples at `scale` times the rate are the same ticks.
  lemma RateConserves(power: u64, samples: u32, rate: u32, scale: nat)
    requires 0 < scale && Supported(rate) && scale * samples < B32
    requires scale * rate < B32 && Supported(scale * rate)
    ensures Contribution(power, scale * samples, scale * rate) == Contribution(power, samples, rate)
  {
    var fine := TICK_RATE / (scale * rate);
    assert TICK_RATE == fine * (scale * rate) == (fine * scale) * rate;
    DivUnique(TICK_RATE, rate, fine * scale);
    assert power * (scale * samples) * fine == power * samples * (fine * scale);
  }

  lemma {:induction false} TotalSplits(families: seq<Basic>, more: seq<Basic>, lane: nat)
    requires lane < LANES
    ensures Total(families + more, lane) == Total(families, lane) + Total(more, lane)
  {
    if more == [] {
      assert families + more == families;
    } else {
      TotalSplits(families, more[..|more| - 1], lane);
      TotalAppend(families + more[..|more| - 1], more[|more| - 1], lane);
      assert families + more == families + more[..|more| - 1] + [more[|more| - 1]];
    }
  }

  lemma TotalWithout(b: seq<Basic>, k: nat, lane: nat)
    requires lane < LANES && k < |b|
    ensures Total(b, lane) == Total(b[..k] + b[k + 1..], lane) + LaneContribution(b[k], lane)
    ensures multiset(b) == multiset(b[..k] + b[k + 1..]) + multiset{b[k]}
  {
    hide LaneContribution;
    assert b == b[..k] + [b[k]] + b[k + 1..];
    TotalSplits(b[..k] + [b[k]], b[k + 1..], lane);
    TotalAppend(b[..k], b[k], lane);
    TotalSplits(b[..k], b[k + 1..], lane);
  }

  lemma Cancel(x: multiset<Basic>, y: multiset<Basic>, f: Basic)
    requires x + multiset{f} == y + multiset{f}
    ensures x == y
  {
    assert x == (x + multiset{f}) - multiset{f};
    assert y == (y + multiset{f}) - multiset{f};
  }

  // Reordering the integrated families changes no total.
  lemma {:induction false} ReorderingConserves(a: seq<Basic>, b: seq<Basic>, lane: nat)
    requires lane < LANES && multiset(a) == multiset(b)
    ensures Total(a, lane) == Total(b, lane)
    decreases |a|
  {
    hide LaneContribution;
    assert |a| == |multiset(a)| == |multiset(b)| == |b|;
    if a != [] {
      var n := |a| - 1;
      assert a[n] in multiset(a);
      var k :| 0 <= k < |b| && b[k] == a[n];
      TotalWithout(a, n, lane);
      TotalWithout(b, k, lane);
      hide Total;
      Cancel(multiset(a[..n] + a[n + 1..]), multiset(b[..k] + b[k + 1..]), a[n]);
      ReorderingConserves(a[..n] + a[n + 1..], b[..k] + b[k + 1..], lane);
    }
  }
}
