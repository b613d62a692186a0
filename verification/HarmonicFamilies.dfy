/** Which base families each harmonic tier holds, over every run.

    The engine's control flow is stated on the lists of families the tiers have
    folded; HarmonicEngine carries the accumulators that refine these lists. */
module HarmonicFamilies {
  import opened Words

  type u40 = x: int | 0 <= x < 0x100_0000_0000
  type u20 = x: int | 0 <= x < 0x10_0000

  // The packed entry of one channel and order.
  datatype Point = Point(magnitude: u40, angle: u20, magnitudeValid: bool, angleValid: bool)

  // One validated base family, seen at one harmonic point.
  datatype Input = Input(
    sequence: u32, generation: u32, sampleRate: u32, sampleCount: u32, firstSample: u64,
    nominal: u8, cycleCount: u8, filterProfile: u8,
    arithmeticError: bool, aligned: bool, valid: bool, magnitudesValid: bool, firstAfterGap: bool,
    point: Point)

  datatype Timing = Timing(targetSample: u64, toggle: bool, targetValid: bool)

  // Whether the record sink takes the families this step may emit.
  datatype Sink = Sink(short: bool, tenMinute: bool, twoHour: bool)

  datatype Period = Cycles150 | Minutes10 | Hours2

  // An emitted family with the base families behind it and, for a two-hour
  // family, the ten-minute parts they came in.
  datatype Record = Record(period: Period, families: seq<Input>, contributors: nat,
    target: u64, overshoot: u32, contaminated: bool, first: bool, parts: seq<seq<Input>>)

  datatype Tier = Tier(families: seq<Input>, first: bool)
  datatype Cascade = Cascade(parts: seq<seq<Input>>, first: bool)

  datatype State = State(
    short: Tier, ten: Tier, two: Cascade,
    target: u64, toggle: bool, haveToggle: bool, targetValid: bool, contaminated: bool,
    lastSequence: u32, expectedFirst: u64, haveInput: bool, discontinuity: bool, ready: bool)

  function Initial(): State {
    State(Tier([], true), Tier([], true), Cascade([], true),
          0, false, false, false, true, 0, 0, false, true, true)
  }

  function LastSample(i: Input): u64 { (i.firstSample + i.sampleCount - 1) % B64 }

  predicate Eligible(i: Input) { !i.arithmeticError && i.aligned && i.valid && i.magnitudesValid }

  predicate SameConfiguration(a: Input, b: Input) {
    a.generation == b.generation && a.sampleRate == b.sampleRate && a.nominal == b.nominal &&
    a.cycleCount == b.cycleCount && a.filterProfile == b.filterProfile
  }

  predicate Incompatible(families: seq<Input>, i: Input) {
    families != [] && !SameConfiguration(families[0], i)
  }

  function ObserveTiming(s: State, t: Timing): State {
    if !s.haveToggle then
      s.(haveToggle := true, toggle := t.toggle, target := t.targetSample, targetValid := t.targetValid)
    else if t.toggle == s.toggle then s
    else
      s.(toggle := t.toggle, target := t.targetSample, targetValid := t.targetValid,
         ten := Tier([], true), two := Cascade([], true), contaminated := true)
  }

  function ResetAll(s: State): State {
    s.(short := Tier([], true), ten := Tier([], true), two := Cascade([], true), contaminated := true)
  }

  // Stale and repeated sequences are refused; a gap in the sequence or more
  // than two samples of displacement marks a discontinuity.
  function AcceptSequence(s: State, i: Input): (State, bool) {
    var advanced := s.(lastSequence := i.sequence, expectedFirst := Add64(i.firstSample, i.sampleCount));
    if !s.haveInput then (advanced.(haveInput := true), true)
    else
      var delta := Distance32(i.sequence, Add32(s.lastSequence, 1));
      if delta < 0 then (s, false)
      else
        var adjacent := Abs(i.firstSample - s.expectedFirst) <= 2;
        (advanced.(discontinuity := s.discontinuity || delta > 0 || !adjacent), true)
  }

  lemma RefusedUnchanged(s: State, i: Input)
    ensures !AcceptSequence(s, i).1 ==> AcceptSequence(s, i).0 == s
  {
  }

  // A discontinuity clears every tier.
  function ClearOnGap(s: State, i: Input): State {
    if s.discontinuity || i.firstAfterGap then ResetAll(s).(discontinuity := false) else s
  }

  // Everything that can clear the tiers before a family is folded.
  function Prepare(s: State, i: Input): State {
    var current := ClearOnGap(s, i);
    if !Eligible(i) || Incompatible(current.short.families, i) || Incompatible(current.ten.families, i)
    then ResetAll(current)
    else current
  }

  function ExtendShort(t: Tier, i: Input): Tier {
    if |t.families| + 1 == 15 then Tier([], false) else t.(families := t.families + [i])
  }

  function FoldShort(s: State, i: Input, accepted: bool): (State, seq<Record>) {
    var after := s.(short := ExtendShort(s.short, i));
    if |s.short.families| + 1 != 15 then (after, [])
    else if !accepted then (after.(ready := false), [])
    else (after, [Record(Cycles150, s.short.families + [i], 15, Add64(LastSample(i), 1), 0, false, s.short.first, [])])
  }

  function ExtendTwo(c: Cascade, part: seq<Input>): Cascade {
    if |c.parts| + 1 == 12 then Cascade([], false) else c.(parts := c.parts + [part])
  }

  function FoldTwo(s: State, part: seq<Input>, target: u64, overshoot: u32, accepted: bool): (State, seq<Record>) {
    var after := s.(two := ExtendTwo(s.two, part));
    if |s.two.parts| + 1 != 12 then (after, [])
    else if !accepted then (after.(ready := false), [])
    else
      var parts := s.two.parts + [part];
      (after, [Record(Hours2, Flatten(parts), 12, target, overshoot, false, s.two.first, parts)])
  }

  function Overshoot(s: State, i: Input): u32 {
    Min(Max(Add64(LastSample(i), 1) - s.target, 0), B32 - 1)
  }

  function EmitTen(s: State, overshoot: u32, accepted: bool): (State, seq<Record>) {
    if !accepted then (s.(ready := false), [])
    else
      (s, [Record(Minutes10, s.ten.families, |s.ten.families| % B32, s.target, overshoot,
                  s.contaminated, s.ten.first, [])])
  }

  // Only an uncontaminated ten-minute interval is cascaded.
  function CascadeTen(s: State, overshoot: u32, accepted: bool): (State, seq<Record>) {
    if s.contaminated || !s.ready then (s, [])
    else FoldTwo(s, s.ten.families, s.target, overshoot, accepted)
  }

  function NextTen(s: State, i: Input): State {
    s.(ten := Tier([], false), contaminated := false, target := Add64(s.target, i.sampleRate * 600 % B64))
  }

  // The ten-minute tier, ending with input `i`, has reached its target.
  function CloseTen(s: State, i: Input, sink: Sink): (State, seq<Record>) {
    var overshoot := Overshoot(s, i);
    var (emitted, records) := EmitTen(s, overshoot, sink.tenMinute);
    var (folded, more) := CascadeTen(emitted, overshoot, sink.twoHour);
    (NextTen(folded, i), records + more)
  }

  function FoldTen(s: State, i: Input, sink: Sink): (State, seq<Record>) {
    var t := s.(ten := s.ten.(families := s.ten.families + [i]));
    if !s.targetValid then (s, [])
    else if Add64(LastSample(i), 1) < s.target then (t, [])
    else CloseTen(t, i, sink)
  }

  lemma EmitTenKeeps(s: State, overshoot: u32, accepted: bool)
    ensures EmitTen(s, overshoot, accepted).0 == s.(ready := s.ready && accepted)
  {
  }

  function Process(s: State, i: Input, sink: Sink): (State, seq<Record>) {
    var (accepted, current) := AcceptSequence(s, i);
    if !s.ready then (s, [])
    else if !current then (s, [])
    else if !Eligible(i) then (Prepare(accepted, i), [])
    else
      var (afterShort, shortRecords) := FoldShort(Prepare(accepted, i), i, sink.short);
      var (afterTen, tenRecords) := FoldTen(afterShort, i, sink);
      (afterTen, shortRecords + tenRecords)
  }

  // ---- Runs -----------------------------------------------------------

  datatype Event = Family(input: Input, sink: Sink) | TimingUpdate(timing: Timing) | TransportGap

  function Step(s: State, e: Event): (State, seq<Record>) {
    match e
    case Family(i, sink) => Process(s, i, sink)
    case TimingUpdate(t) => (ObserveTiming(s, t), [])
    case TransportGap => (s.(discontinuity := true), [])
  }

  function Run(events: seq<Event>): (State, seq<Record>) {
    if events == [] then (Initial(), [])
    else
      var (s, records) := Run(events[..|events| - 1]);
      var (next, more) := Step(s, events[|events| - 1]);
      (next, records + more)
  }

  // ---- The invariant of every reachable state -------------------------

  function Flatten(parts: seq<seq<Input>>): seq<Input> {
    if parts == [] then [] else Flatten(parts[..|parts| - 1]) + parts[|parts| - 1]
  }

  ghost predicate Consecutive(families: seq<Input>) {
    forall k :: 0 <= k < |families| ==> families[k].sequence == (families[0].sequence + k) % B32
  }

  ghost predicate OneConfiguration(families: seq<Input>) {
    forall k :: 0 <= k < |families| ==> SameConfiguration(families[0], families[k])
  }

  ghost predicate TierReachesTo(families: seq<Input>, sequence: u32) {
    && Consecutive(families)
    && OneConfiguration(families)
    && (families != [] ==> families[|families| - 1].sequence == sequence)
  }

  // The ten-minute tier resumes exactly where the two-hour tier stops.
  ghost predicate Resumes(ten: seq<Input>, two: seq<Input>, lastSequence: u32) {
    two != [] ==>
      if ten != [] then ten[0].sequence == Add32(two[|two| - 1].sequence, 1)
      else two[|two| - 1].sequence == lastSequence
  }

  // The two-hour interval in progress: whole ten-minute parts, end to end.
  ghost predicate CascadeOpen(parts: seq<seq<Input>>) {
    && |parts| < 12
    && Whole(parts)
    && Consecutive(Flatten(parts))
  }

  // Every part is a ten-minute tier of one configuration.
  ghost predicate Whole(parts: seq<seq<Input>>) {
    forall k :: 0 <= k < |parts| ==> parts[k] != [] && OneConfiguration(parts[k])
  }

  ghost predicate Flags(s: State) {
    && (s.contaminated ==> s.two.parts == [])
    && (!s.targetValid ==> s.ten.families == [] && s.two.parts == [])
    && (!s.haveToggle ==> !s.targetValid)
    && (!s.haveInput ==> s.short.families == [] && s.ten.families == [] && s.two.parts == [])
  }

  // The long tiers up to and including source `sequence`.
  ghost predicate LongTiers(ten: seq<Input>, parts: seq<seq<Input>>, ready: bool, sequence: u32) {
    && TierReachesTo(ten, sequence)
    && CascadeOpen(parts)
    && (ready ==> Resumes(ten, Flatten(parts), sequence))
  }

  ghost predicate InvAt(s: State, sequence: u32) {
    && TierReachesTo(s.short.families, sequence)
    && |s.short.families| < 15
    && LongTiers(s.ten.families, s.two.parts, s.ready, sequence)
    && Flags(s)
  }

  ghost predicate Inv(s: State) { InvAt(s, s.lastSequence) }

  // What an emitted family covers.
  ghost predicate Sound(r: Record) {
    && r.families != []
    && Consecutive(r.families)
    && match r.period
       case Cycles150 => |r.families| == r.contributors == 15 && OneConfiguration(r.families)
       case Minutes10 => r.contributors == |r.families| % B32 && OneConfiguration(r.families)
       case Hours2 =>
         r.contributors == |r.parts| == 12 && r.families == Flatten(r.parts) && Whole(r.parts) && !r.contaminated
  }

  ghost predicate AllSound(records: seq<Record>) {
    forall k :: 0 <= k < |records| ==> Sound(records[k])
  }

  lemma FlattenAppend(parts: seq<seq<Input>>, part: seq<Input>)
    ensures Flatten(parts + [part]) == Flatten(parts) + part
  {
    assert (parts + [part])[..|parts|] == parts;
  }

  lemma FlattenNonEmpty(parts: seq<seq<Input>>)
    requires parts != [] && forall k :: 0 <= k < |parts| ==> parts[k] != []
    ensures Flatten(parts) != []
  {
  }

  lemma NextOffset(first: u32, n: nat, k: nat)
    requires n > 0
    ensures (Add32((first + (n - 1)) % B32, 1) + k) % B32 == (first + (n + k)) % B32
  {
    Words.ModUnique(first + (n + k), B32, (first + (n + k)) / B32, (first + (n + k)) % B32);
  }

  lemma ConsecutiveJoin(a: seq<Input>, b: seq<Input>)
    requires Consecutive(a) && Consecutive(b)
    requires a != [] && b != [] ==> b[0].sequence == Add32(a[|a| - 1].sequence, 1)
    ensures Consecutive(a + b)
  {
    if a == [] { assert a + b == b; }
    forall k | 0 <= k < |a + b| && a != []
      ensures (a + b)[k].sequence == ((a + b)[0].sequence + k) % B32
    {
      if k >= |a| {
        NextOffset(a[0].sequence, |a|, k - |a|);
      }
    }
  }

  lemma TierExtends(families: seq<Input>, i: Input, previous: u32)
    requires TierReachesTo(families, previous)
    requires families != [] ==> i.sequence == Add32(previous, 1) && SameConfiguration(families[0], i)
    ensures TierReachesTo(families + [i], i.sequence)
  {
    assert Consecutive([i]);
    ConsecutiveJoin(families, [i]);
  }

  // The input directly follows whatever the tiers hold.
  ghost predicate Follows(s: State, i: Input, previous: u32) {
    && s.lastSequence == i.sequence
    && s.haveInput
    && (s.short.families != [] || s.ten.families != [] || s.two.parts != [] ==> i.sequence == Add32(previous, 1))
    && !Incompatible(s.ten.families, i)
  }

  predicate Cleared(s: State) {
    s.short.families == [] && s.ten.families == [] && s.two.parts == []
  }

  lemma ClearedInv(s: State, sequence: u32)
    requires Cleared(s) && (s.haveToggle || !s.targetValid)
    ensures InvAt(s, sequence)
  {
  }

  // The same numbering and timing, with every tier cleared.
  predicate ClearedFrom(t: State, s: State) {
    && Cleared(t) && t.lastSequence == s.lastSequence && t.haveInput == s.haveInput
    && t.haveToggle == s.haveToggle && t.targetValid == s.targetValid
  }

  lemma ResetClears(s: State)
    ensures ClearedFrom(ResetAll(s), s)
    ensures ClearedFrom(ResetAll(s).(discontinuity := false), s)
  {
  }

  // Preparation either leaves the state as it was or clears every tier.
  lemma PrepareShape(s: State, i: Input)
    ensures var t := Prepare(s, i);
            || ClearedFrom(t, s)
            || (t == s && !s.discontinuity && Eligible(i) &&
                !Incompatible(s.short.families, i) && !Incompatible(s.ten.families, i))
  {
    ResetClears(s);
    ResetClears(ClearOnGap(s, i));
    hide Eligible, Incompatible, ResetAll;
  }

  // An accepted input directly follows the last, or the state is marked.
  lemma Accepted(s: State, i: Input)
    requires Inv(s) && AcceptSequence(s, i).1
    ensures var t := AcceptSequence(s, i).0;
            && InvAt(t, s.lastSequence)
            && t.lastSequence == i.sequence && t.haveInput
            && (!t.discontinuity && (t.short.families != [] || t.ten.families != [] || t.two.parts != []) ==>
                i.sequence == Add32(s.lastSequence, 1))
  {
    hide TierReachesTo, LongTiers;
  }

  lemma PrepareReady(s: State, i: Input)
    requires Inv(s) && AcceptSequence(s, i).1
    ensures var t := Prepare(AcceptSequence(s, i).0, i);
            && InvAt(t, s.lastSequence)
            && Follows(t, i, s.lastSequence)
            && !Incompatible(t.short.families, i)
            && (!Eligible(i) ==> Inv(t))
  {
    Accepted(s, i);
    var accepted := AcceptSequence(s, i).0;
    PrepareShape(accepted, i);
    var t := Prepare(accepted, i);
    hide TierReachesTo, LongTiers, AcceptSequence, Eligible, SameConfiguration, Prepare;
    if Cleared(t) {
      ClearedInv(t, s.lastSequence);
      ClearedInv(t, i.sequence);
    }
  }

  lemma ExtendShortPreserves(t: Tier, i: Input, previous: u32)
    requires TierReachesTo(t.families, previous) && |t.families| < 15 && !Incompatible(t.families, i)
    requires t.families != [] ==> i.sequence == Add32(previous, 1)
    ensures TierReachesTo(t.families + [i], i.sequence)
    ensures TierReachesTo(ExtendShort(t, i).families, i.sequence)
    ensures |ExtendShort(t, i).families| < 15
  {
    TierExtends(t.families, i, previous);
  }

  lemma FoldShortPreserves(s: State, i: Input, accepted: bool, previous: u32)
    requires InvAt(s, previous) && Follows(s, i, previous) && !Incompatible(s.short.families, i)
    ensures var t := FoldShort(s, i, accepted).0;
            && TierReachesTo(t.short.families, i.sequence)
            && |t.short.families| < 15
            && LongTiers(t.ten.families, t.two.parts, t.ready, previous)
            && Flags(t)
            && (t.ten.families != [] || t.two.parts != [] ==> i.sequence == Add32(previous, 1))
            && t == s.(short := t.short, ready := t.ready)
    ensures AllSound(FoldShort(s, i, accepted).1)
  {
    ExtendShortPreserves(s.short, i, previous);
  }

  lemma JoinedEnd(before: seq<Input>, part: seq<Input>, sequence: u32)
    requires Consecutive(before) && TierReachesTo(part, sequence) && part != []
    requires Resumes(part, before, sequence)
    ensures Consecutive(before + part) && before + part != []
    ensures Resumes([], before + part, sequence)
  {
    ConsecutiveJoin(before, part);
    assert (before + part)[|before + part| - 1] == part[|part| - 1];
  }

  lemma ExtendTwoPreserves(c: Cascade, part: seq<Input>, sequence: u32)
    requires TierReachesTo(part, sequence) && part != [] && CascadeOpen(c.parts)
    requires Resumes(part, Flatten(c.parts), sequence)
    ensures Flatten(c.parts + [part]) != [] && Consecutive(Flatten(c.parts + [part]))
    ensures Whole(c.parts + [part]) && CascadeOpen(ExtendTwo(c, part).parts)
    ensures Resumes([], Flatten(ExtendTwo(c, part).parts), sequence)
  {
    FlattenAppend(c.parts, part);
    JoinedEnd(Flatten(c.parts), part, sequence);
    assert Flatten([]) == [];
  }

  // The closing part, and the two-hour interval it may extend.
  ghost predicate PartFollows(part: seq<Input>, parts: seq<seq<Input>>, ready: bool, sequence: u32) {
    && part != []
    && TierReachesTo(part, sequence)
    && CascadeOpen(parts)
    && (ready ==> Resumes(part, Flatten(parts), sequence))
  }

  lemma TenTierEnd(s: State, i: Input, previous: u32)
    requires LongTiers(s.ten.families, s.two.parts, s.ready, previous)
    requires s.ten.families != [] || s.two.parts != [] ==> i.sequence == Add32(previous, 1)
    requires !Incompatible(s.ten.families, i)
    ensures PartFollows(s.ten.families + [i], s.two.parts, s.ready, i.sequence)
  {
    TierExtends(s.ten.families, i, previous);
    if s.two.parts == [] { assert Flatten(s.two.parts) == []; }
  }

  // The two-hour interval after the cascade is open and reaches `sequence`.
  lemma CascadeTenPreserves(s: State, overshoot: u32, accepted: bool, sequence: u32)
    requires PartFollows(s.ten.families, s.two.parts, s.ready, sequence)
    requires s.contaminated ==> s.two.parts == []
    ensures var t := CascadeTen(s, overshoot, accepted).0;
            && t == s.(two := t.two, ready := t.ready)
            && CascadeOpen(t.two.parts)
            && (t.ready ==> Resumes([], Flatten(t.two.parts), sequence))
    ensures AllSound(CascadeTen(s, overshoot, accepted).1)
  {
    if !s.contaminated && s.ready {
      ExtendTwoPreserves(s.two, s.ten.families, sequence);
      hide CascadeOpen, Consecutive, TierReachesTo, Resumes, Flatten;
    } else {
      assert s.contaminated ==> Flatten(s.two.parts) == [];
    }
  }

  lemma EmitTenSound(s: State, overshoot: u32, accepted: bool)
    requires s.ten.families != [] && Consecutive(s.ten.families) && OneConfiguration(s.ten.families)
    ensures AllSound(EmitTen(s, overshoot, accepted).1)
  {
  }

  lemma CloseTenPreserves(s: State, i: Input, sink: Sink)
    requires PartFollows(s.ten.families, s.two.parts, s.ready, i.sequence)
    requires s.targetValid && s.haveInput && Flags(s)
    ensures var t := CloseTen(s, i, sink).0;
            && LongTiers(t.ten.families, t.two.parts, t.ready, i.sequence)
            && Flags(t)
            && t.short == s.short && t.lastSequence == s.lastSequence
    ensures AllSound(CloseTen(s, i, sink).1)
  {
    var overshoot := Overshoot(s, i);
    EmitTenKeeps(s, overshoot, sink.tenMinute);
    EmitTenSound(s, overshoot, sink.tenMinute);
    CascadeTenPreserves(EmitTen(s, overshoot, sink.tenMinute).0, overshoot, sink.twoHour, i.sequence);
    assert TierReachesTo([], i.sequence);
    hide CascadeTen, EmitTen, CascadeOpen, TierReachesTo, Resumes, Flatten, Sound;
  }

  lemma FoldTenPreserves(s: State, i: Input, sink: Sink, previous: u32)
    requires TierReachesTo(s.short.families, i.sequence) && |s.short.families| < 15
    requires LongTiers(s.ten.families, s.two.parts, s.ready, previous)
    requires Flags(s) && s.lastSequence == i.sequence && s.haveInput
    requires s.ten.families != [] || s.two.parts != [] ==> i.sequence == Add32(previous, 1)
    requires !Incompatible(s.ten.families, i)
    ensures Inv(FoldTen(s, i, sink).0)
    ensures AllSound(FoldTen(s, i, sink).1)
  {
    if s.targetValid {
      TenTierEnd(s, i, previous);
      if Add64(LastSample(i), 1) >= s.target {
        CloseTenPreserves(s.(ten := s.ten.(families := s.ten.families + [i])), i, sink);
      }
    } else {
      assert Flatten(s.two.parts) == [];
    }
  }

  lemma ObserveTimingPreserves(s: State, t: Timing)
    requires Inv(s)
    ensures Inv(ObserveTiming(s, t))
  {
  }

  lemma ProcessPreserves(s: State, i: Input, sink: Sink)
    requires Inv(s)
    ensures Inv(Process(s, i, sink).0)
    ensures AllSound(Process(s, i, sink).1)
  {
    hide TierReachesTo, LongTiers, Flags, Prepare, FoldShort, FoldTen, AcceptSequence, Eligible, Sound;
    if s.ready && AcceptSequence(s, i).1 {
      PrepareReady(s, i);
      if Eligible(i) {
        var prepared := Prepare(AcceptSequence(s, i).0, i);
        FoldShortPreserves(prepared, i, sink.short, s.lastSequence);
        FoldTenPreserves(FoldShort(prepared, i, sink.short).0, i, sink, s.lastSequence);
      }
    }
  }

  lemma StepPreserves(s: State, e: Event)
    requires Inv(s)
    ensures Inv(Step(s, e).0)
    ensures AllSound(Step(s, e).1)
  {
    if e.Family? { ProcessPreserves(s, e.input, e.sink); }
    hide Process, TierReachesTo;
  }

  // Over every run of families, timing updates and transport gaps: the state
  // invariant holds and every emitted family covers consecutive sources.
  lemma {:induction false} EveryRun(events: seq<Event>)
    ensures Inv(Run(events).0)
    ensures AllSound(Run(events).1)
  {
    if events != [] {
      EveryRun(events[..|events| - 1]);
      StepPreserves(Run(events[..|events| - 1]).0, events[|events| - 1]);
    }
  }

  // The configuration test looks at the two shorter tiers only: a family next in
  // sequence clears a two-hour interval in progress exactly when one of them is
  // incompatible.
  lemma TwoHourSurvivesConfigurationChange(s: State, i: Input)
    requires Inv(s) && s.ready && s.haveInput && !s.discontinuity && !i.firstAfterGap && Eligible(i)
    requires i.sequence == Add32(s.lastSequence, 1) && Abs(i.firstSample - s.expectedFirst) <= 2
    requires s.two.parts != []
    ensures Prepare(AcceptSequence(s, i).0, i).two.parts == s.two.parts <==>
            !Incompatible(s.short.families, i) && !Incompatible(s.ten.families, i)
  {
  }
}
